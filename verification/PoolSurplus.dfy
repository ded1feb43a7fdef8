/** What a surplus worker breaks: `activate` only checks that at least `n`
    workers are ready. */
module PoolSurplus {
  import opened Pool
  import opened Wrappers

  lemma {:induction false} ExecuteAppend(s: State, p: seq<Step>, q: seq<Step>)
    ensures Execute(s, p + q) == Execute(Execute(s, p), q)
    decreases |p|
  {
    hide Apply;
    if p == [] {
      assert p + q == q;
    } else {
      assert (p + q)[0] == p[0] && (p + q)[1..] == p[1..] + q;
      ExecuteAppend(Apply(s, p[0]), p[1..], q);
    }
  }

  /** One more step at the end of a schedule. */
  lemma ExecuteStep(s: State, p: seq<Step>, st: Step)
    ensures Execute(s, p + [st]) == Apply(Execute(s, p), st)
  {
    hide Apply;
    ExecuteAppend(s, p, [st]);
    var m := Execute(s, p);
    assert Execute(m, [st]) == Execute(Apply(m, st), []);
  }

  /** Only `activate(n)` is ever called, and `run` otherwise. */
  ghost predicate Activates(sched: seq<Step>, n: nat) {
    forall st | st in sched :: st.MainMoves? && st.cmd.Activate? ==> st.cmd.n == n
  }

  /** All workers count themselves and read `seq`. */
  lemma {:induction false} StartAll(n: nat, k: nat, size: nat) returns (sched: seq<Step>)
    requires k <= size
    ensures Activates(sched, n)
    ensures Execute(Init(size), sched)
         == Init(size).(ready := k, ws := seq(size, i => if i < k then Spin(0) else NotStarted))
  {
    if k == 0 {
      sched := [];
      assert Init(size).ws == seq(size, i => if i < k then Spin(0) else NotStarted);
    } else {
      var p := StartAll(n, k - 1, size);
      var s := Execute(Init(size), p);
      sched := p + [WorkerMoves(k - 1)] + [WorkerMoves(k - 1)];
      ExecuteStep(Init(size), p, WorkerMoves(k - 1));
      ExecuteStep(Init(size), p + [WorkerMoves(k - 1)], WorkerMoves(k - 1));
      assert s.ws[k - 1 := Spin(0)] == seq(size, i => if i < k then Spin(0) else NotStarted);
    }
  }

  /** Main claims and runs whatever is left of its job. */
  lemma {:induction false} MainDrains(n: nat, s: State) returns (sched: seq<Step>)
    requires s.main.MainDrain? && s.main.d.Fetch? && s.main.d.chunk > 0 && s.main.d.total == s.total && s.alive.Some?
    ensures Activates(sched, n)
    ensures exists c: nat, h :: (c >= s.total
      && Execute(s, sched) == s.(main := Waiting(s.main.n), cursor := c, hits := h))
    decreases s.total - s.cursor
  {
    var m := MainMoves(Run(0));
    if s.cursor >= s.total {
      sched := [m];
      ExecuteStep(s, [], m);
      assert Execute(s, sched) == s.(main := Waiting(s.main.n), cursor := s.cursor + s.main.d.chunk, hits := s.hits);
    } else {
      var s1 := Apply(s, m);
      var s2 := Apply(s1, m);
      var rest := MainDrains(n, s2);
      sched := [m] + [m] + rest;
      ExecuteStep(s, [], m);
      ExecuteStep(s, [m], m);
      ExecuteAppend(s, [m] + [m], rest);
      var c: nat, h :| c >= s2.total && Execute(s2, rest) == s2.(main := Waiting(s2.main.n), cursor := c, hits := h);
      assert Execute(s, sched) == s.(main := Waiting(s.main.n), cursor := c, hits := h);
    }
  }

  /** A worker that notices the job late finds nothing left and reports. */
  lemma LateWorker(n: nat, s: State, w: nat) returns (sched: seq<Step>)
    requires w < |s.ws| == |s.fin| && s.ws[w].Spin? && s.ws[w].last != s.seqno && s.cursor >= s.total
    requires s.main.Waiting? && !s.bad && s.alive == Some(s.task)
    ensures Activates(sched, n)
    ensures var e := Execute(s, sched);
      && e.ws == s.ws[w := Spin(s.seqno)] && |e.fin| == |s.fin| && e.done == s.done + 1
      && e.main == s.main && e.seqno == s.seqno && e.cursor >= e.total && e.alive == s.alive
      && !e.bad && e.task == s.task
  {
    hide Apply;
    var a := LateNotice(n, s, w);
    var m := Execute(s, a);
    var b := LateReport(n, m, w);
    ExecuteAppend(s, a, b);
    sched := a + b;
  }

  lemma LateNotice(n: nat, s: State, w: nat) returns (sched: seq<Step>)
    requires w < |s.ws| && s.ws[w].Spin? && s.ws[w].last != s.seqno && !s.bad && s.alive == Some(s.task)
    ensures Activates(sched, n)
    ensures Execute(s, sched) == s.(ws := s.ws[w := Draining(s.seqno, s.task, LoadChunk(s.total))])
  {
    var m := WorkerMoves(w);
    sched := [m] + [m] + [m];
    ExecuteStep(s, [], m);
    ExecuteStep(s, [m], m);
    ExecuteStep(s, [m] + [m], m);
  }

  lemma LateReport(n: nat, s: State, w: nat) returns (sched: seq<Step>)
    requires w < |s.ws| == |s.fin| && s.cursor >= s.total
    requires s.ws[w] == Draining(s.seqno, s.task, LoadChunk(s.total))
    ensures Activates(sched, n)
    ensures var e := Execute(s, sched);
      && e == s.(ws := s.ws[w := Spin(s.seqno)], fin := s.fin[w := s.seqno], done := s.done + 1, cursor := e.cursor)
      && e.cursor >= s.cursor
  {
    var m := WorkerMoves(w);
    sched := [m] + [m] + [m];
    ExecuteStep(s, [], m);
    ExecuteStep(s, [m], m);
    ExecuteStep(s, [m] + [m], m);
  }

  /** The first `k` workers report the job. */
  lemma {:induction false} LateWorkers(n: nat, s: State, k: nat) returns (sched: seq<Step>)
    requires k <= |s.ws| == |s.fin| && s.cursor >= s.total && s.main.Waiting? && !s.bad && s.alive == Some(s.task)
    requires forall w | 0 <= w < |s.ws| :: s.ws[w].Spin? && s.ws[w].last != s.seqno
    ensures Activates(sched, n)
    ensures var e := Execute(s, sched);
      && |e.ws| == |s.ws| && |e.fin| == |s.fin| && e.done == s.done + k && e.cursor >= e.total
      && e.main == s.main && e.seqno == s.seqno && !e.bad && e.alive == s.alive && e.task == s.task
      && forall w | k <= w < |s.ws| :: e.ws[w] == s.ws[w]
    decreases k
  {
    hide Apply;
    if k == 0 {
      sched := [];
    } else {
      var p := LateWorkers(n, s, k - 1);
      var m := Execute(s, p);
      var q := LateWorker(n, m, k - 1);
      ExecuteAppend(s, p, q);
      sched := p + q;
    }
  }

  /** Main after `i` steps of its first `run`, of 128 rows. */
  ghost predicate Posting(s: State, n: nat, size: nat, i: nat) {
    && !s.bad && |s.fin| == size && s.ws == seq(size, _ => Spin(0)) && s.workers == n
    && s.seqno == (if i < 8 then 0 else 1)
    && (i >= 2 ==> s.alive.Some?) && (i >= 5 ==> s.chunk > 0) && (i >= 6 ==> s.done == 0) && (i >= 7 ==> s.alive == Some(s.task))
    && s.main == match i
       case 0 => Idle
       case 1 => LoadWorkers(128)
       case 2 => StoreTotal(n, 128)
       case 3 => StoreCursor(n, 128)
       case 4 => StoreChunk(n, 128)
       case 5 => StoreDone(n)
       case 6 => StoreTask(n)
       case 7 => BumpSeq(n)
       case 8 => MainDrain(n, LoadTotal)
       case 9 => MainDrain(n, LoadChunk(s.total))
       case _ => MainDrain(n, Fetch(s.total, s.chunk))
  }

  lemma PostingStep(s: State, n: nat, size: nat, i: nat)
    requires n > 0 && i < 10 && Posting(s, n, size, i)
    ensures Posting(Apply(s, MainMoves(Run(128))), n, size, i + 1)
  {
  }

  /** The state right after the first post of 128 rows. */
  lemma FirstPost(n: nat, size: nat) returns (sched: seq<Step>)
    requires 1 <= n < size
    ensures Activates(sched, n)
    ensures Posting(Execute(Init(size), sched), n, size, 10)
  {
    var p := StartAll(n, size, size);
    sched := p + [MainMoves(Activate(n))];
    ExecuteStep(Init(size), p, MainMoves(Activate(n)));
    assert Posting(Execute(Init(size), sched), n, size, 0);
    sched := FirstRun(n, size, sched, 10);
  }

  lemma {:induction false} FirstRun(n: nat, size: nat, start: seq<Step>, i: nat) returns (sched: seq<Step>)
    requires n > 0 && i <= 10 && Activates(start, n) && Posting(Execute(Init(size), start), n, size, 0)
    ensures Activates(sched, n) && Posting(Execute(Init(size), sched), n, size, i)
  {
    hide Posting, Apply, Execute;
    if i == 0 {
      sched := start;
    } else {
      var p := FirstRun(n, size, start, i - 1);
      var m := MainMoves(Run(128));
      sched := p + [m];
      ExecuteStep(Init(size), p, m);
      PostingStep(Execute(Init(size), p), n, size, i - 1);
    }
  }

  /** For every `n >= 1` and every larger number of spinning workers, some
      schedule makes the surplus worker dereference a task whose `run` has
      returned. */
  lemma SurplusWorkerUnsafe(n: nat, size: nat)
    requires 1 <= n < size
    ensures exists sched :: Activates(sched, n) && Execute(Init(size), sched).bad
  {
    hide Apply;
    var a := FirstPost(n, size);
    var s := Execute(Init(size), a);
    var b := MainDrains(n, s);
    var s1 := Execute(s, b);
    ExecuteAppend(Init(size), a, b);
    var c := LateWorkers(n, s1, n);
    var s2 := Execute(s1, c);
    ExecuteAppend(Init(size), a + b, c);
    assert s2.ws[n] == Spin(0);
    var sched := a + b + c;
    DeadDereference(n, size, sched);
  }

  lemma DeadDereference(n: nat, size: nat, p: seq<Step>)
    requires Activates(p, n)
    requires var s := Execute(Init(size), p);
      n < |s.ws| && s.ws[n] == Spin(0) && s.seqno == 1 && s.main == Waiting(n) && s.done >= n
    ensures exists sched :: Activates(sched, n) && Execute(Init(size), sched).bad
  {
    var m, w := MainMoves(Run(128)), WorkerMoves(n);
    ExecuteStep(Init(size), p, m);
    ExecuteStep(Init(size), p + [m], w);
    ExecuteStep(Init(size), p + [m] + [w], w);
    assert Activates(p + [m] + [w] + [w], n);
  }

  /** Lifetime safety over all schedules holds exactly when the workers that
      spin are the `n >= 1` the pool was activated for. */
  lemma SafeIffExact(n: nat, size: nat)
    requires 1 <= n <= size
    ensures (forall sched | Activates(sched, n) :: !Execute(Init(size), sched).bad) <==> size == n
  {
    if n < size {
      SurplusWorkerUnsafe(n, size);
    } else {
      forall sched | Activates(sched, n) ensures !Execute(Init(size), sched).bad {
        LifetimeSafety(n, sched);
      }
    }
  }
}
