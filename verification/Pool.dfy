/** The spin-worker pool as a step system over atomics. */
module Pool {
  // One main thread and `|ws|` workers, one atomic access per step. A schedule
  // picks the thread that moves next; every theorem is about all schedules.

  import opened Wrappers

  /** Program points of `drain`, with the locals loaded so far. */
  datatype Drain =
    | LoadTotal
    | LoadChunk(total: nat)
    | Fetch(total: nat, chunk: nat)
    | Exec(total: nat, chunk: nat, start: nat, end: nat)

  /** Program points of `worker_loop`. */
  datatype Worker =
    | NotStarted
    | Counted                                  // ready bumped, first seq load pending
    | Spin(last: nat)
    | TakeTask(last: nat)                      // new seq seen, task pointer not loaded
    | Draining(last: nat, task: nat, d: Drain)
    | Finishing(last: nat)                     // drained, done not bumped

  /** Program points of the main thread: between calls, or inside `run`. */
  datatype Main =
    | Idle
    | Panicked
    | LoadWorkers(total: nat)
    | Inline(total: nat)
    | StoreTotal(n: nat, total: nat)
    | StoreCursor(n: nat, total: nat)
    | StoreChunk(n: nat, total: nat)
    | StoreDone(n: nat)
    | StoreTask(n: nat)
    | BumpSeq(n: nat)
    | MainDrain(n: nat, d: Drain)
    | Waiting(n: nat)

  /** The atomics, the program counters, and what the theorems speak about: the
      task on the main stack, how often each row of the job ran, whether a dead
      task was ever dereferenced, and the last job each worker reported. */
  datatype State = State(
    seqno: nat, cursor: nat, total: nat, chunk: nat, done: nat, task: nat,
    workers: nat, ready: nat,
    main: Main, ws: seq<Worker>,
    created: nat, alive: Option<nat>, hits: seq<nat>, bad: bool, fin: seq<nat>)

  datatype Command = Activate(n: nat) | Run(total: nat)
  datatype Step = WorkerMoves(w: nat) | MainMoves(cmd: Command)

  function Max(a: nat, b: nat): nat { if a < b then b else a }
  function Min(a: nat, b: nat): nat { if a < b then a else b }

  /** Rows handed out per claim. */
  function ChunkFor(n: nat, total: nat): (c: nat)
    ensures c >= 16
  {
    var share := total / (4 * n + 4);
    if share < 16 then 16 else share
  }

  function Init(n: nat): State {
    State(0, 0, 0, 1, 0, 0, 0, 0, Idle, seq(n, _ => NotStarted), 0, None, [], false, seq(n, _ => 0))
  }

  /** Rows `a..b` of the current job run once more. */
  function Bump(h: seq<nat>, a: nat, b: nat): (r: seq<nat>)
    ensures |r| == |h|
    ensures forall i | 0 <= i < |h| :: r[i] == if a <= i < b then h[i] + 1 else h[i]
  {
    seq(|h|, i requires 0 <= i < |h| => if a <= i < b then h[i] + 1 else h[i])
  }

  /** Calling through task pointer `t`: runs the rows, or hits a dead frame. */
  function Call(s: State, t: nat, a: nat, b: nat): State {
    if s.alive == Some(t) then s.(hits := Bump(s.hits, a, b)) else s.(bad := true)
  }

  /** One step of `drain`; `None` when the loop breaks. */
  function StepDrain(s: State, t: nat, d: Drain): (State, Option<Drain>) {
    match d
    case LoadTotal => (s, Some(LoadChunk(s.total)))
    case LoadChunk(tot) => (s, Some(Fetch(tot, Max(s.chunk, 1))))
    case Fetch(tot, ch) =>
      var start := s.cursor;
      var s' := s.(cursor := start + ch);
      if start >= tot then (s', None) else (s', Some(Exec(tot, ch, start, Min(start + ch, tot))))
    case Exec(tot, ch, a, b) => (Call(s, t, a, b), Some(Fetch(tot, ch)))
  }

  function StepWorker(s: State, w: nat): State
    requires w < |s.ws|
  {
    match s.ws[w]
    case NotStarted => s.(ready := s.ready + 1, ws := s.ws[w := Counted])
    case Counted => s.(ws := s.ws[w := Spin(s.seqno)])
    case Spin(last) => if s.seqno != last then s.(ws := s.ws[w := TakeTask(s.seqno)]) else s
    case TakeTask(last) =>
      s.(bad := s.bad || s.alive != Some(s.task), ws := s.ws[w := Draining(last, s.task, LoadTotal)])
    case Draining(last, t, d) =>
      var (s', d') := StepDrain(s, t, d);
      s'.(ws := s.ws[w := if d'.Some? then Draining(last, t, d'.value) else Finishing(last)])
    case Finishing(last) =>
      s.(done := s.done + 1, ws := s.ws[w := Spin(last)],
         fin := if w < |s.fin| then s.fin[w := last] else s.fin)
  }

  function StepMain(s: State, cmd: Command): State {
    match s.main
    case Idle => (
      match cmd
      case Activate(n) => if s.ready >= n then s.(workers := n) else s.(main := Panicked)
      case Run(total) => s.(main := LoadWorkers(total))
    )
    case Panicked => s
    case LoadWorkers(total) =>
      if s.workers == 0 || total < 128 then s.(main := Inline(total))
      else s.(main := StoreTotal(s.workers, total), created := s.created + 1,
              alive := Some(s.created), hits := seq(total, _ => 0))
    case Inline(total) => s.(main := Idle)
    case StoreTotal(n, total) => s.(total := total, main := StoreCursor(n, total))
    case StoreCursor(n, total) => s.(cursor := 0, main := StoreChunk(n, total))
    case StoreChunk(n, total) => s.(chunk := ChunkFor(n, total), main := StoreDone(n))
    case StoreDone(n) => s.(done := 0, main := StoreTask(n))
    case StoreTask(n) => s.(task := if s.alive.Some? then s.alive.value else s.task, main := BumpSeq(n))
    case BumpSeq(n) => s.(seqno := s.seqno + 1, main := MainDrain(n, LoadTotal))
    case MainDrain(n, d) =>
      var (s', d') := StepDrain(s, if s.alive.Some? then s.alive.value else 0, d);
      s'.(main := if d'.Some? then MainDrain(n, d'.value) else Waiting(n))
    case Waiting(n) => if s.done < n then s else s.(main := Idle, alive := None)
  }

  function Apply(s: State, st: Step): State {
    match st
    case WorkerMoves(w) => if w < |s.ws| then StepWorker(s, w) else s
    case MainMoves(cmd) => StepMain(s, cmd)
  }

  /** The state after a whole schedule. */
  function Execute(s: State, sched: seq<Step>): State
    decreases |sched|
  {
    if sched == [] then s else Execute(Apply(s, sched[0]), sched[1..])
  }

  /** The caller activates the pool for all `n` spinning workers, or not at all. */
  predicate Exact(st: Step, n: nat) {
    match st
    case MainMoves(Activate(k)) => k == n
    case _ => true
  }

  predicate ExactSchedule(sched: seq<Step>, n: nat) {
    forall i | 0 <= i < |sched| :: Exact(sched[i], n)
  }

  // ---- The invariant -----------------------------------------------------------

  predicate Quiet(m: Main) {
    !m.MainDrain? && !m.Waiting?
  }

  /** Main is inside a posted `run`, after creating its task. */
  predicate HasTask(m: Main) {
    !m.Idle? && !m.Panicked? && !m.LoadWorkers? && !m.Inline?
  }

  function Started(ws: seq<Worker>): nat {
    if ws == [] then 0 else (if ws[0].NotStarted? then 0 else 1) + Started(ws[1..])
  }

  /** How many workers have reported job `k`. */
  function Reported(fin: seq<nat>, k: nat): nat {
    if fin == [] then 0 else (if fin[0] == k then 1 else 0) + Reported(fin[1..], k)
  }

  ghost predicate DrainOk(s: State, d: Drain) {
    match d
    case LoadTotal => true
    case LoadChunk(tot) => tot == s.total
    case Fetch(tot, ch) => tot == s.total && ch == s.chunk
    case Exec(tot, ch, a, b) =>
      && tot == s.total && ch == s.chunk
      && a < tot && b == Min(a + ch, tot) && a + ch <= s.cursor
  }

  ghost predicate Holds(d: Drain, i: nat) {
    d.Exec? && d.start <= i < d.end
  }

  ghost predicate WorkerHolds(w: Worker, i: nat) {
    w.Draining? && Holds(w.d, i)
  }

  ghost predicate MainHolds(m: Main, i: nat) {
    m.MainDrain? && Holds(m.d, i)
  }

  ghost predicate QuietWorker(s: State, w: Worker) {
    w.NotStarted? || w.Counted? || w == Spin(s.seqno)
  }

  ghost predicate PostedWorker(s: State, w: Worker, f: nat) {
    match w
    case NotStarted => false
    case Counted => f < s.seqno
    case Spin(last) => last == s.seqno || (last + 1 == s.seqno && f < s.seqno)
    case TakeTask(last) => last == s.seqno && f < s.seqno
    case Draining(last, t, d) => last == s.seqno && f < s.seqno && s.alive == Some(t) && DrainOk(s, d)
    case Finishing(last) => last == s.seqno && f < s.seqno && s.cursor >= s.total
  }

  /** Someone holds row `i`. */
  ghost predicate Held(s: State, i: nat) {
    MainHolds(s.main, i) || exists w :: 0 <= w < |s.ws| && WorkerHolds(s.ws[w], i)
  }

  ghost predicate InvQuiet(s: State) {
    && (forall w | 0 <= w < |s.ws| :: QuietWorker(s, s.ws[w]))
    && match s.main
       case StoreTotal(n, total) => n == |s.ws| && total >= 128 && s.hits == seq(total, _ => 0)
       case StoreCursor(n, total) => n == |s.ws| && total >= 128 && s.hits == seq(total, _ => 0) && s.total == total
       case StoreChunk(n, total) => n == |s.ws| && total >= 128 && s.hits == seq(total, _ => 0) && s.total == total && s.cursor == 0
       case StoreDone(n) => n == |s.ws| && s.total >= 128 && s.hits == seq(s.total, _ => 0) && s.cursor == 0 && s.chunk >= 16
       case StoreTask(n) => n == |s.ws| && s.total >= 128 && s.hits == seq(s.total, _ => 0) && s.cursor == 0 && s.chunk >= 16 && s.done == 0
       case BumpSeq(n) => n == |s.ws| && s.total >= 128 && s.hits == seq(s.total, _ => 0) && s.cursor == 0 && s.chunk >= 16 && s.done == 0
         && s.alive == Some(s.task)
       case _ => true
  }

  ghost predicate Fields(s: State) {
    && s.total >= 128 && s.chunk >= 16 && |s.hits| == s.total
    && s.alive == Some(s.task) && s.cursor % s.chunk == 0
  }

  ghost predicate Threads(s: State)
    requires |s.fin| == |s.ws|
  {
    && (forall w | 0 <= w < |s.ws| :: PostedWorker(s, s.ws[w], s.fin[w]))
    && (forall w | 0 <= w < |s.ws| :: s.fin[w] == s.seqno ==> s.ws[w] == Spin(s.seqno) && s.cursor >= s.total)
    && (s.main.MainDrain? ==> DrainOk(s, s.main.d))
    && (s.main.Waiting? ==> s.cursor >= s.total)
  }

  /** No two threads hold one row. */
  ghost predicate Exclusive(s: State) {
    && (forall v, w, i :: 0 <= v < w < |s.ws| && WorkerHolds(s.ws[v], i) ==> !WorkerHolds(s.ws[w], i))
    && (forall w, i :: 0 <= w < |s.ws| && MainHolds(s.main, i) ==> !WorkerHolds(s.ws[w], i))
  }

  /** Each claimed row is either being run or has run exactly once. */
  ghost predicate Coverage(s: State) {
    forall i | 0 <= i < |s.hits| ::
      s.hits[i] == if i < s.cursor && !Held(s, i) then 1 else 0
  }

  ghost predicate InvPosted(s: State)
    requires |s.fin| == |s.ws|
  {
    && Fields(s) && Threads(s) && Exclusive(s) && Coverage(s)
    && s.done == Reported(s.fin, s.seqno)
    && (s.main.MainDrain? ==> s.main.n == |s.ws|)
    && (s.main.Waiting? ==> s.main.n == |s.ws|)
  }

  ghost predicate Inv(s: State) {
    && !s.bad && |s.fin| == |s.ws|
    && (s.workers == 0 || s.workers == |s.ws|)
    && s.ready == Started(s.ws)
    && (s.workers != 0 ==> Started(s.ws) == |s.ws|)
    && (forall w | 0 <= w < |s.ws| :: s.fin[w] <= s.seqno)
    && (HasTask(s.main) ==> s.workers != 0 && s.created > 0 && s.alive == Some(s.created - 1))
    && (!HasTask(s.main) ==> s.alive == None)
    && (if Quiet(s.main) then InvQuiet(s) else InvPosted(s))
  }

  // ---- Counting ------------------------------------------------------------------

  lemma {:induction false} StartedBound(ws: seq<Worker>)
    ensures Started(ws) <= |ws|
    ensures Started(ws) == |ws| ==> forall w | 0 <= w < |ws| :: !ws[w].NotStarted?
  {
    if ws != [] {
      StartedBound(ws[1..]);
      if Started(ws) == |ws| {
        forall w | 0 <= w < |ws| ensures !ws[w].NotStarted? {
          if w > 0 { assert ws[w] == ws[1..][w - 1]; }
        }
      }
    }
  }

  lemma {:induction false} StartedUpdate(ws: seq<Worker>, w: nat, x: Worker)
    requires w < |ws| && !x.NotStarted?
    ensures Started(ws[w := x]) == Started(ws) + (if ws[w].NotStarted? then 1 else 0)
  {
    if w == 0 {
      assert ws[w := x][1..] == ws[1..];
    } else {
      assert ws[w := x][1..] == ws[1..][w - 1 := x];
      StartedUpdate(ws[1..], w - 1, x);
    }
  }

  lemma {:induction false} ReportedUpdate(fin: seq<nat>, k: nat, w: nat)
    requires w < |fin| && fin[w] != k
    ensures Reported(fin[w := k], k) == Reported(fin, k) + 1
  {
    if w == 0 {
      assert fin[w := k][1..] == fin[1..];
    } else {
      assert fin[w := k][1..] == fin[1..][w - 1 := k];
      ReportedUpdate(fin[1..], k, w - 1);
    }
  }

  lemma {:induction false} ReportedAll(fin: seq<nat>, k: nat)
    ensures Reported(fin, k) <= |fin|
    ensures Reported(fin, k) == |fin| <==> forall w | 0 <= w < |fin| :: fin[w] == k
  {
    if fin != [] {
      ReportedAll(fin[1..], k);
      assert forall w | 0 < w < |fin| :: fin[w] == fin[1..][w - 1];
      if Reported(fin, k) == |fin| {
      } else if fin[0] == k {
        var v :| 0 <= v < |fin[1..]| && fin[1..][v] != k;
        assert fin[v + 1] != k;
      }
    }
  }

  lemma {:induction false} ReportedNone(fin: seq<nat>, k: nat)
    requires forall w | 0 <= w < |fin| :: fin[w] < k
    ensures Reported(fin, k) == 0
  {
    if fin != [] {
      assert forall w | 0 <= w < |fin[1..]| :: fin[1..][w] == fin[w + 1];
      ReportedNone(fin[1..], k);
    }
  }

  // ---- Every step keeps the invariant ------------------------------------------------

  lemma MultipleModulo(k: nat, q: nat)
    requires k > 0
    ensures (k * q) % k == 0
  {
    var x := k * q;
    var r, m := x / k, x % k;
    assert x == k * r + m;
    assert r + 1 <= q ==> k * (r + 1) <= k * q;
    assert r >= q + 1 ==> k * r >= k * (q + 1);
  }

  lemma NextMultiple(c: nat, k: nat)
    requires k > 0 && c % k == 0
    ensures (c + k) % k == 0
  {
    var q := c / k;
    assert c + k == k * (q + 1);
    MultipleModulo(k, q + 1);
  }

  lemma QuietWorkerStep(s: State, w: nat)
    requires Inv(s) && Quiet(s.main) && w < |s.ws|
    ensures Inv(StepWorker(s, w))
  {
    var s' := StepWorker(s, w);
    StartedBound(s.ws);
    if s'.ws != s.ws {
      StartedUpdate(s.ws, w, s'.ws[w]);
      assert s'.ws == s.ws[w := s'.ws[w]];
    }
  }

  lemma QuietMainStep(s: State, cmd: Command)
    requires Inv(s) && Quiet(s.main) && !s.main.BumpSeq?
    requires cmd.Activate? ==> cmd.n == |s.ws|
    ensures Inv(StepMain(s, cmd))
  {
    StartedBound(s.ws);
  }

  lemma PostStep(s: State, cmd: Command)
    requires Inv(s) && s.main.BumpSeq?
    ensures Inv(StepMain(s, cmd))
  {
    var s' := StepMain(s, cmd);
    StartedBound(s.ws);
    ReportedNone(s.fin, s'.seqno);
    assert Fields(s');
    assert Threads(s');
    assert Coverage(s');
  }

  /** A posted worker that neither claims nor completes rows. */
  lemma PostedPlainStep(s: State, w: nat)
    requires Inv(s) && !Quiet(s.main) && w < |s.ws|
    requires s.ws[w].Counted? || s.ws[w].Spin? || s.ws[w].TakeTask?
    ensures Inv(StepWorker(s, w))
  {
    var s' := StepWorker(s, w);
    if s'.ws != s.ws {
      StartedUpdate(s.ws, w, s'.ws[w]);
      SameHolders(s, s', w);
    }
  }

  /** Replacing a worker by one that holds the same rows keeps every holder. */
  lemma SameHolders(s: State, s': State, w: nat)
    requires w < |s.ws| == |s'.ws| && s'.ws == s.ws[w := s'.ws[w]] && s'.main == s.main
    requires forall i :: WorkerHolds(s'.ws[w], i) <==> WorkerHolds(s.ws[w], i)
    requires Exclusive(s)
    ensures Exclusive(s')
    ensures forall i :: Held(s', i) <==> Held(s, i)
  {
    forall i ensures Held(s', i) <==> Held(s, i) {
      if v :| 0 <= v < |s.ws| && WorkerHolds(s.ws[v], i) {
        assert WorkerHolds(s'.ws[v], i);
      }
      if v :| 0 <= v < |s.ws| && WorkerHolds(s'.ws[v], i) {
        assert WorkerHolds(s.ws[v], i);
      }
    }
  }

  /** Worker `w` moves on from rows it held (or held none) to rows it now holds. */
  lemma WorkerHolders(s: State, s': State, w: nat)
    requires w < |s.ws| == |s'.ws| && s'.ws == s.ws[w := s'.ws[w]] && s'.main == s.main
    requires Exclusive(s)
    requires forall i :: WorkerHolds(s'.ws[w], i) ==> WorkerHolds(s.ws[w], i) || !Held(s, i)
    ensures Exclusive(s')
    ensures forall i :: Held(s', i) <==> WorkerHolds(s'.ws[w], i) || (Held(s, i) && !WorkerHolds(s.ws[w], i))
  {
    assert forall v, i :: 0 <= v < |s.ws| && WorkerHolds(s.ws[v], i) ==> Held(s, i);
    forall u, i | 0 <= u < |s'.ws| && MainHolds(s'.main, i)
      ensures !WorkerHolds(s'.ws[u], i)
    {
      assert Held(s, i);
    }
    forall i ensures Held(s', i) <==> WorkerHolds(s'.ws[w], i) || (Held(s, i) && !WorkerHolds(s.ws[w], i)) {
      if v :| 0 <= v < |s.ws| && WorkerHolds(s.ws[v], i) && v != w {
        assert s'.ws[v] == s.ws[v] && WorkerHolds(s'.ws[v], i);
      }
      if v :| 0 <= v < |s'.ws| && WorkerHolds(s'.ws[v], i) && v != w {
        assert s'.ws[v] == s.ws[v] && WorkerHolds(s.ws[v], i);
      }
    }
  }

  /** Rows at or past the cursor are held by nobody. */
  lemma UnclaimedFree(s: State, i: nat)
    requires Inv(s) && !Quiet(s.main) && i >= s.cursor
    ensures !Held(s, i)
  {
  }

  lemma WorkerDrainStep(s: State, w: nat)
    requires Inv(s) && !Quiet(s.main) && w < |s.ws| && s.ws[w].Draining?
    ensures Inv(StepWorker(s, w))
  {
    hide StepWorker, Inv;
    match s.ws[w].d
    case Fetch(_, _) => WorkerFetchStep(s, w);
    case Exec(_, _, _, _) => WorkerExecStep(s, w);
    case _ => WorkerLoadStep(s, w);
  }

  lemma WorkerLoadStep(s: State, w: nat)
    requires Inv(s) && !Quiet(s.main) && w < |s.ws| && s.ws[w].Draining? && (s.ws[w].d.LoadTotal? || s.ws[w].d.LoadChunk?)
    ensures Inv(StepWorker(s, w))
  {
    var s' := StepWorker(s, w);
    StartedUpdate(s.ws, w, s'.ws[w]);
    assert PostedWorker(s, s.ws[w], s.fin[w]);
    SameHolders(s, s', w);
  }

  lemma WorkerFetchStep(s: State, w: nat)
    requires Inv(s) && !Quiet(s.main) && w < |s.ws| && s.ws[w].Draining? && s.ws[w].d.Fetch?
    ensures Inv(StepWorker(s, w))
  {
    var s' := StepWorker(s, w);
    StartedUpdate(s.ws, w, s'.ws[w]);
    forall i: nat | i >= s.cursor ensures !Held(s, i) { UnclaimedFree(s, i); }
    assert PostedWorker(s, s.ws[w], s.fin[w]);
    WorkerHolders(s, s', w);
    NextMultiple(s.cursor, s.chunk);
  }

  lemma WorkerExecStep(s: State, w: nat)
    requires Inv(s) && !Quiet(s.main) && w < |s.ws| && s.ws[w].Draining? && s.ws[w].d.Exec?
    ensures Inv(StepWorker(s, w))
  {
    var s' := StepWorker(s, w);
    StartedUpdate(s.ws, w, s'.ws[w]);
    assert PostedWorker(s, s.ws[w], s.fin[w]);
    WorkerHolders(s, s', w);
    assert Coverage(s') by {
      forall i | 0 <= i < |s'.hits| ensures s'.hits[i] == if i < s'.cursor && !Held(s', i) then 1 else 0 {
        if WorkerHolds(s.ws[w], i) {
          assert Held(s, i);
        }
      }
    }
  }

  lemma FinishStep(s: State, w: nat)
    requires Inv(s) && !Quiet(s.main) && w < |s.ws| && s.ws[w].Finishing?
    ensures Inv(StepWorker(s, w))
  {
    var s' := StepWorker(s, w);
    StartedUpdate(s.ws, w, s'.ws[w]);
    SameHolders(s, s', w);
    assert PostedWorker(s, s.ws[w], s.fin[w]);
    ReportedUpdate(s.fin, s.seqno, w);
  }

  /** As `WorkerHolders`, for the main thread's own share of the job. */
  lemma MainHolders(s: State, s': State)
    requires s'.ws == s.ws && Exclusive(s)
    requires forall i :: MainHolds(s'.main, i) ==> MainHolds(s.main, i) || !Held(s, i)
    ensures Exclusive(s')
    ensures forall i :: Held(s', i) <==> MainHolds(s'.main, i) || (Held(s, i) && !MainHolds(s.main, i))
  {
  }

  lemma MainLoadStep(s: State, cmd: Command)
    requires Inv(s) && s.main.MainDrain? && (s.main.d.LoadTotal? || s.main.d.LoadChunk?)
    ensures Inv(StepMain(s, cmd))
  {
    MainHolders(s, StepMain(s, cmd));
  }

  lemma MainFetchStep(s: State, cmd: Command)
    requires Inv(s) && s.main.MainDrain? && s.main.d.Fetch?
    ensures Inv(StepMain(s, cmd))
  {
    var s' := StepMain(s, cmd);
    forall i: nat | i >= s.cursor ensures !Held(s, i) { UnclaimedFree(s, i); }
    MainHolders(s, s');
    NextMultiple(s.cursor, s.chunk);
    assert Fields(s') && Threads(s');
  }

  lemma MainExecStep(s: State, cmd: Command)
    requires Inv(s) && s.main.MainDrain? && s.main.d.Exec?
    ensures Inv(StepMain(s, cmd))
  {
    var s' := StepMain(s, cmd);
    MainHolders(s, s');
    assert Fields(s') && Threads(s');
    assert Coverage(s') by {
      forall i | 0 <= i < |s'.hits| ensures s'.hits[i] == if i < s'.cursor && !Held(s', i) then 1 else 0 {
        if MainHolds(s.main, i) {
          assert Held(s, i);
        }
      }
    }
  }

  lemma MainDrainStep(s: State, cmd: Command)
    requires Inv(s) && s.main.MainDrain?
    ensures Inv(StepMain(s, cmd))
  {
    hide StepMain, Inv;
    match s.main.d
    case Fetch(_, _) => MainFetchStep(s, cmd);
    case Exec(_, _, _, _) => MainExecStep(s, cmd);
    case _ => MainLoadStep(s, cmd);
  }

  /** When `run` returns, every worker is back to spinning, no row is held, and
      every row of the job ran exactly once. */
  lemma ReturnState(s: State)
    requires Inv(s) && s.main.Waiting? && s.done >= s.main.n
    ensures forall w | 0 <= w < |s.ws| :: s.ws[w] == Spin(s.seqno) && s.fin[w] == s.seqno
    ensures forall i | 0 <= i < |s.hits| :: s.hits[i] == 1
    ensures |s.hits| == s.total
  {
    ReportedAll(s.fin, s.seqno);
    forall i | 0 <= i < |s.hits| ensures s.hits[i] == 1 {
      assert !Held(s, i);
    }
  }

  lemma WaitStep(s: State, cmd: Command)
    requires Inv(s) && s.main.Waiting?
    ensures Inv(StepMain(s, cmd))
  {
    if s.done >= s.main.n {
      ReturnState(s);
    }
  }

  lemma SameThreads(s: State, st: Step)
    ensures |Apply(s, st).ws| == |s.ws|
  {
  }

  lemma PostedStarted(s: State, w: nat)
    requires Inv(s) && !Quiet(s.main) && w < |s.ws|
    ensures !s.ws[w].NotStarted?
  {
    assert PostedWorker(s, s.ws[w], s.fin[w]);
  }

  lemma StepKeepsInv(s: State, st: Step)
    requires Inv(s) && Exact(st, |s.ws|)
    ensures Inv(Apply(s, st)) && |Apply(s, st).ws| == |s.ws|
  {
    hide Inv, StepMain, StepWorker;
    SameThreads(s, st);
    match st
    case WorkerMoves(w) =>
      if w < |s.ws| {
        if Quiet(s.main) {
          QuietWorkerStep(s, w);
        } else {
          PostedStarted(s, w);
          match s.ws[w]
          case Draining(_, _, _) => WorkerDrainStep(s, w);
          case Finishing(_) => FinishStep(s, w);
          case _ => PostedPlainStep(s, w);
        }
      }
    case MainMoves(cmd) =>
      match s.main
      case MainDrain(_, _) => MainDrainStep(s, cmd);
      case Waiting(_) => WaitStep(s, cmd);
      case BumpSeq(_) => PostStep(s, cmd);
      case _ => QuietMainStep(s, cmd);
  }

  // ---- Safety over all schedules ---------------------------------------------------------

  lemma {:induction false} ScheduleKeepsInv(s: State, sched: seq<Step>)
    requires Inv(s) && ExactSchedule(sched, |s.ws|)
    ensures Inv(Execute(s, sched)) && |Execute(s, sched).ws| == |s.ws|
    decreases |sched|
  {
    hide Apply, Inv;
    if sched != [] {
      assert Exact(sched[0], |s.ws|);
      StepKeepsInv(s, sched[0]);
      ScheduleKeepsInv(Apply(s, sched[0]), sched[1..]);
    }
  }

  lemma InitInv(n: nat)
    ensures Inv(Init(n))
  {
    var s := Init(n);
    NoneStarted(s.ws);
  }

  lemma {:induction false} NoneStarted(ws: seq<Worker>)
    requires forall w | 0 <= w < |ws| :: ws[w].NotStarted?
    ensures Started(ws) == 0
  {
    if ws != [] {
      NoneStarted(ws[1..]);
    }
  }

  /** Lifetime safety, for every schedule of exactly `n` workers: no dead task
      is ever dereferenced; a worker inside `drain` works on the task of a `run`
      that has not returned; and no worker is inside `drain` while the fields of
      the next job are being stored. */
  lemma LifetimeSafety(n: nat, sched: seq<Step>)
    requires ExactSchedule(sched, n)
    ensures var s := Execute(Init(n), sched);
      && !s.bad
      && (forall w | 0 <= w < |s.ws| && s.ws[w].Draining? ::
            s.alive == Some(s.ws[w].task) && (s.main.MainDrain? || s.main.Waiting?))
      && (Quiet(s.main) ==> forall w | 0 <= w < |s.ws| :: QuietWorker(s, s.ws[w]))
  {
    InitInv(n);
    ScheduleKeepsInv(Init(n), sched);
  }

  /** Exactly-once coverage: at any time the rows in flight are disjoint and no
      row has run twice; when `run` returns, every row has run exactly once. */
  lemma ExactlyOnce(n: nat, sched: seq<Step>, cmd: Command)
    requires ExactSchedule(sched, n)
    ensures var s := Execute(Init(n), sched);
      && (s.main.MainDrain? || s.main.Waiting? ==>
            Exclusive(s) && |s.hits| == s.total && forall i | 0 <= i < s.total :: s.hits[i] <= 1)
      && (s.main.Waiting? && StepMain(s, cmd).main.Idle? ==>
            |s.hits| == s.total && forall i | 0 <= i < s.total :: s.hits[i] == 1)
  {
    InitInv(n);
    ScheduleKeepsInv(Init(n), sched);
    var s := Execute(Init(n), sched);
    if s.main.Waiting? && StepMain(s, cmd).main.Idle? {
      ReturnState(s);
    }
  }
}
