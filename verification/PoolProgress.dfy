/** Progress of the worker pool: when a posted job returns, how much work it
    takes, and where the cursor ends. */
module PoolProgress {
  import opened Pool
  import opened Wrappers

  ghost predicate Posted(s: State) {
    Inv(s) && !Quiet(s.main)
  }

  /** A worker that will never take part in the posted job: it read `seq` for
      the first time after the post, or is about to. */
  ghost predicate Lost(s: State, w: nat)
    requires w < |s.ws| == |s.fin|
  {
    s.ws[w].Counted? || (s.ws[w] == Spin(s.seqno) && s.fin[w] < s.seqno)
  }

  ghost predicate NoneLost(s: State)
    requires |s.ws| == |s.fin|
  {
    forall w | 0 <= w < |s.ws| :: !Lost(s, w)
  }

  /** Main has come back from `run` at some point of the schedule. */
  predicate Returned(s: State, sched: seq<Step>)
    decreases |sched|
  {
    s.main.Idle? || (sched != [] && Returned(Apply(s, sched[0]), sched[1..]))
  }

  // ---- The work left -----------------------------------------------------------------

  function DrainRank(d: Drain): nat {
    match d
    case LoadTotal => 4
    case LoadChunk(_) => 3
    case Fetch(_, _) => 2
    case Exec(_, _, _, _) => 3
  }

  function WorkerRank(w: Worker, k: nat): nat {
    match w
    case NotStarted => 2
    case Counted => 1
    case Spin(last) => if last == k then 0 else 6
    case TakeTask(_) => 5
    case Draining(_, _, d) => DrainRank(d)
    case Finishing(_) => 1
  }

  function RankSum(ws: seq<Worker>, k: nat): nat {
    if ws == [] then 0 else WorkerRank(ws[0], k) + RankSum(ws[1..], k)
  }

  /** Rows nobody has claimed. */
  function Unclaimed(s: State): nat {
    if s.cursor < s.total then s.total - s.cursor else 0
  }

  /** Rows not yet claimed, weighted, plus the distance of every thread from
      the end of its part. */
  function Measure(s: State): nat {
    RankSum(s.ws, s.seqno)
    + (match s.main case MainDrain(_, d) => DrainRank(d) case Waiting(_) => 1 case _ => 0)
    + 2 * Unclaimed(s)
  }

  lemma {:induction false} RankUpdate(ws: seq<Worker>, k: nat, w: nat, x: Worker)
    requires w < |ws|
    ensures RankSum(ws[w := x], k) + WorkerRank(ws[w], k) == RankSum(ws, k) + WorkerRank(x, k)
  {
    if w == 0 {
      assert ws[w := x][1..] == ws[1..];
    } else {
      assert ws[w := x][1..] == ws[1..][w - 1 := x];
      RankUpdate(ws[1..], k, w - 1, x);
    }
  }

  /** A step of a posted job spins in place, ends the job, or makes progress. */
  lemma StepProgress(s: State, st: Step)
    requires Posted(s) && Exact(st, |s.ws|)
    ensures var s' := Apply(s, st);
      s' == s || s'.main.Idle? || (Posted(s') && s'.seqno == s.seqno && Measure(s') < Measure(s))
  {
    hide Inv, StepMain, StepWorker, Measure;
    StepKeepsInv(s, st);
    match st
    case WorkerMoves(w) =>
      if w < |s.ws| {
        WorkerProgress(s, w);
      }
    case MainMoves(cmd) => MainProgress(s, cmd);
  }

  /** What the invariant says of one worker of a posted job. */
  lemma WorkerFacts(s: State, w: nat)
    requires Posted(s) && w < |s.ws|
    ensures |s.ws| == |s.fin| && PostedWorker(s, s.ws[w], s.fin[w]) && s.chunk > 0
    ensures s.fin[w] == s.seqno ==> s.ws[w] == Spin(s.seqno)
  {
  }

  lemma WorkerProgress(s: State, w: nat)
    requires Posted(s) && w < |s.ws|
    ensures var s' := StepWorker(s, w);
      s' == s || (s'.main == s.main && s'.seqno == s.seqno && Measure(s') < Measure(s))
  {
    hide Inv, Measure;
    WorkerFacts(s, w);
    WorkerEffect(s, w);
    var s' := StepWorker(s, w);
    if s' != s {
      MeasureUpdate(s, s', w);
    }
  }

  lemma WorkerEffect(s: State, w: nat)
    requires w < |s.ws| == |s.fin| && s.chunk > 0 && PostedWorker(s, s.ws[w], s.fin[w])
    ensures var s' := StepWorker(s, w);
      && s'.main == s.main && s'.seqno == s.seqno && s'.total == s.total && |s'.ws| == |s.ws|
      && s'.ws == s.ws[w := s'.ws[w]]
      && (s' == s || WorkerRank(s'.ws[w], s.seqno) + 2 * Unclaimed(s') < WorkerRank(s.ws[w], s.seqno) + 2 * Unclaimed(s))
  {
    var s' := StepWorker(s, w);
    assert s'.ws == s.ws[w := s'.ws[w]];
  }

  lemma MeasureUpdate(s: State, s': State, w: nat)
    requires w < |s.ws| == |s'.ws| && s'.ws == s.ws[w := s'.ws[w]]
    requires s'.main == s.main && s'.seqno == s.seqno && s'.total == s.total
    ensures Measure(s') + WorkerRank(s.ws[w], s.seqno) + 2 * Unclaimed(s) == Measure(s) + WorkerRank(s'.ws[w], s.seqno) + 2 * Unclaimed(s')
  {
    RankUpdate(s.ws, s.seqno, w, s'.ws[w]);
  }

  lemma MainProgress(s: State, cmd: Command)
    requires Posted(s)
    ensures var s' := StepMain(s, cmd);
      s' == s || s'.main.Idle? || (!Quiet(s'.main) && s'.seqno == s.seqno && Measure(s') < Measure(s))
  {
  }

  /** How many steps of the schedule do something. */
  function Effective(s: State, sched: seq<Step>): nat
    decreases |sched|
  {
    if sched == [] then 0
    else (if Apply(s, sched[0]) == s then 0 else 1) + Effective(Apply(s, sched[0]), sched[1..])
  }

  /** Whatever the schedule, a job that has not returned yet has consumed at
      most `Measure` effective steps. */
  lemma {:induction false} WorkBound(s: State, sched: seq<Step>)
    requires Posted(s) && ExactSchedule(sched, |s.ws|) && !Returned(s, sched)
    ensures Posted(Execute(s, sched)) && Execute(s, sched).seqno == s.seqno
    ensures Effective(s, sched) + Measure(Execute(s, sched)) <= Measure(s)
    decreases |sched|
  {
    hide Apply, Inv, Measure;
    if sched != [] {
      assert Exact(sched[0], |s.ws|);
      StepProgress(s, sched[0]);
      StepKeepsInv(s, sched[0]);
      WorkBound(Apply(s, sched[0]), sched[1..]);
    }
  }

  // ---- No posted job is stuck unless a worker is lost -----------------------------------

  /** The thread that can move: main, or a worker with work left. */
  ghost predicate Enabled(s: State, st: Step)
    requires |s.ws| == |s.fin|
  {
    match st
    case MainMoves(_) => s.main.MainDrain? || (s.main.Waiting? && s.done >= s.main.n)
    case WorkerMoves(w) => w < |s.ws| && s.fin[w] != s.seqno && !Lost(s, w)
  }

  lemma EnabledMoves(s: State, st: Step)
    requires Posted(s) && Enabled(s, st)
    ensures Apply(s, st) != s
  {
    match st
    case WorkerMoves(w) =>
      assert PostedWorker(s, s.ws[w], s.fin[w]);
      var s' := Apply(s, st);
      assert s'.ws[w] != s.ws[w];
    case MainMoves(cmd) =>
      assert Apply(s, st).main != s.main;
  }

  lemma SomeEnabled(s: State, cmd: Command) returns (st: Step)
    requires Posted(s) && NoneLost(s)
    ensures Enabled(s, st) && (st == MainMoves(cmd) || (st.WorkerMoves? && st.w < |s.ws|))
  {
    if s.main.MainDrain? || s.done >= s.main.n {
      st := MainMoves(cmd);
    } else {
      ReportedAll(s.fin, s.seqno);
      var w :| 0 <= w < |s.fin| && s.fin[w] != s.seqno;
      st := WorkerMoves(w);
    }
  }

  lemma NoneLostKept(s: State, st: Step)
    requires Posted(s) && NoneLost(s) && Exact(st, |s.ws|)
    ensures Apply(s, st).main.Idle? || (|Apply(s, st).ws| == |Apply(s, st).fin| && NoneLost(Apply(s, st)))
  {
    StepKeepsInv(s, st);
    match st
    case WorkerMoves(w) =>
      if w < |s.ws| {
        var s' := Apply(s, st);
        assert PostedWorker(s, s.ws[w], s.fin[w]);
        forall v | 0 <= v < |s'.ws| ensures !Lost(s', v) {
          assert !Lost(s, v);
        }
      }
    case MainMoves(cmd) =>
      var s' := Apply(s, st);
      assert s'.ws == s.ws && s'.fin == s.fin && s'.seqno == s.seqno;
      forall v | 0 <= v < |s'.ws| ensures !Lost(s', v) {
        assert !Lost(s, v);
      }
  }

  /** Some schedule brings the job home. */
  lemma {:induction false} Completes(s: State, cmd: Command) returns (sched: seq<Step>)
    requires Posted(s) && NoneLost(s) && Exact(MainMoves(cmd), |s.ws|)
    ensures ExactSchedule(sched, |s.ws|) && Returned(s, sched)
    decreases Measure(s)
  {
    var st := SomeEnabled(s, cmd);
    EnabledMoves(s, st);
    StepProgress(s, st);
    StepKeepsInv(s, st);
    NoneLostKept(s, st);
    if Apply(s, st).main.Idle? {
      sched := [st];
      assert Returned(Apply(s, sched[0]), sched[1..]);
    } else {
      var rest := Completes(Apply(s, st), cmd);
      sched := [st] + rest;
      assert sched[1..] == rest;
    }
  }

  /** A round in which every thread moves at least once. */
  ghost predicate FairRound(round: seq<Step>, n: nat) {
    && ExactSchedule(round, n)
    && (exists cmd :: MainMoves(cmd) in round)
    && (forall w: nat | w < n :: WorkerMoves(w) in round)
  }

  /** A round containing an enabled thread ends the job or makes progress. */
  lemma {:induction false} RoundProgress(s: State, round: seq<Step>, st: Step)
    requires Posted(s) && ExactSchedule(round, |s.ws|)
    requires Enabled(s, st) && st in round
    ensures Returned(s, round) || Measure(Execute(s, round)) < Measure(s)
    decreases |round|
  {
    if !Returned(s, round) {
      var s' := Apply(s, round[0]);
      assert Exact(round[0], |s.ws|);
      StepProgress(s, round[0]);
      StepKeepsInv(s, round[0]);
      assert !Returned(s', round[1..]);
      hide Apply, Inv, Measure;
      if s' == s {
        EnabledMoves(s, st);
        assert st in round[1..];
        RoundProgress(s, round[1..], st);
      } else {
        WorkBound(s', round[1..]);
      }
    }
  }

  lemma {:induction false} NoneLostKeptAll(s: State, sched: seq<Step>)
    requires Posted(s) && NoneLost(s) && ExactSchedule(sched, |s.ws|) && !Returned(s, sched)
    ensures |Execute(s, sched).ws| == |Execute(s, sched).fin| == |s.ws| && NoneLost(Execute(s, sched))
    decreases |sched|
  {
    hide Apply, NoneLost;
    if sched != [] {
      assert Exact(sched[0], |s.ws|);
      StepProgress(s, sched[0]);
      StepKeepsInv(s, sched[0]);
      NoneLostKept(s, sched[0]);
      NoneLostKeptAll(Apply(s, sched[0]), sched[1..]);
    }
  }

  function Concat(rounds: seq<seq<Step>>): seq<Step> {
    if rounds == [] then [] else rounds[0] + Concat(rounds[1..])
  }

  lemma {:induction false} ReturnedAppend(s: State, p: seq<Step>, q: seq<Step>)
    ensures Returned(s, p) ==> Returned(s, p + q)
    ensures Returned(Execute(s, p), q) ==> Returned(s, p + q)
    decreases |p|
  {
    hide Apply;
    if p == [] {
      assert p + q == q;
      if Returned(s, p) { assert Returned(s, p + q); }
    } else {
      assert (p + q)[0] == p[0] && (p + q)[1..] == p[1..] + q;
      ReturnedAppend(Apply(s, p[0]), p[1..], q);
    }
  }

  /** Under any fair schedule a job without lost workers returns within
      `Measure` rounds. */
  lemma {:induction false} FairReturn(s: State, rounds: seq<seq<Step>>)
    requires Posted(s) && NoneLost(s)
    requires forall i | 0 <= i < |rounds| :: FairRound(rounds[i], |s.ws|)
    requires |rounds| > Measure(s)
    ensures Returned(s, Concat(rounds))
    decreases |rounds|
  {
    hide Apply, Measure;
    var round := rounds[0];
    var cmd :| MainMoves(cmd) in round;
    var st := SomeEnabled(s, cmd);
    RoundProgress(s, round, st);
    if !Returned(s, round) {
      WorkBound(s, round);
      NoneLostKeptAll(s, round);
      FairReturn(Execute(s, round), rounds[1..]);
    }
    ReturnedAppend(s, round, Concat(rounds[1..]));
  }

  // ---- The start-up hypothesis is exact ------------------------------------------------------

  lemma LostKept(s: State, st: Step, w: nat)
    requires Posted(s) && w < |s.ws| && Lost(s, w) && Exact(st, |s.ws|)
    ensures var s' := Apply(s, st);
      Posted(s') && |s'.ws| == |s.ws| && s'.seqno == s.seqno && Lost(s', w)
  {
    StepKeepsInv(s, st);
    ReportedAll(s.fin, s.seqno);
    match st
    case WorkerMoves(v) =>
      if v < |s.ws| {
        assert PostedWorker(s, s.ws[v], s.fin[v]);
      }
    case MainMoves(cmd) =>
  }

  /** With a lost worker no schedule whatsoever lets `run` return. */
  lemma {:induction false} LostForever(s: State, sched: seq<Step>, w: nat)
    requires Posted(s) && w < |s.ws| && Lost(s, w) && ExactSchedule(sched, |s.ws|)
    ensures !Returned(s, sched)
    decreases |sched|
  {
    hide Apply;
    if sched != [] {
      assert Exact(sched[0], |s.ws|);
      LostKept(s, sched[0], w);
      LostForever(Apply(s, sched[0]), sched[1..], w);
    }
  }

  /** A job can return if and only if every worker had done its first load of
      `seq` when the job was posted. */
  lemma ReturnsIff(s: State, cmd: Command)
    requires Inv(s) && s.main.BumpSeq? && Exact(MainMoves(cmd), |s.ws|)
    ensures (exists sched :: ExactSchedule(sched, |s.ws|) && Returned(StepMain(s, cmd), sched))
        <==> (forall w | 0 <= w < |s.ws| :: s.ws[w].Spin?)
  {
    PostStep(s, cmd);
    StartedBound(s.ws);
    var p := StepMain(s, cmd);
    if forall w | 0 <= w < |s.ws| :: s.ws[w].Spin? {
      assert NoneLost(p);
      var sched := Completes(p, cmd);
    } else {
      var w :| 0 <= w < |s.ws| && !s.ws[w].Spin?;
      assert QuietWorker(s, s.ws[w]);
      assert Lost(p, w);
      forall sched | ExactSchedule(sched, |s.ws|) ensures !Returned(p, sched) {
        LostForever(p, sched, w);
      }
    }
  }

  // ---- One condition at the first post covers the whole run ---------------------------------

  ghost predicate AllSpin(s: State) {
    forall w | 0 <= w < |s.ws| :: s.ws[w].Spin?
  }

  /** If the schedule posts a first job, every worker has read `seq` by then. */
  ghost predicate ReadyAtFirstPost(s: State, sched: seq<Step>)
    decreases |sched|
  {
    sched != [] ==>
      && (s.main.BumpSeq? && s.seqno == 0 && sched[0].MainMoves? ==> AllSpin(s))
      && ReadyAtFirstPost(Apply(s, sched[0]), sched[1..])
  }

  /** Some continuation brings main back to the caller. */
  ghost predicate CanReturn(s: State) {
    exists sched :: ExactSchedule(sched, |s.ws|) && Returned(s, sched)
  }

  /** Every state the schedule passes through can still return, unless the
      caller panicked. */
  ghost predicate NeverStuck(s: State, sched: seq<Step>)
    decreases |sched|
  {
    && (!s.main.Panicked? ==> CanReturn(s))
    && (sched != [] ==> NeverStuck(Apply(s, sched[0]), sched[1..]))
  }

  ghost predicate AllStarted(s: State) {
    forall w | 0 <= w < |s.ws| :: !s.ws[w].NotStarted? && !s.ws[w].Counted?
  }

  /** What holds throughout such a run: after the first post every worker has
      read `seq`, and no posted job has lost one. */
  ghost predicate OnTrack(s: State) {
    && Inv(s)
    && (s.seqno > 0 ==> AllStarted(s))
    && (!Quiet(s.main) ==> NoneLost(s))
  }

  lemma StepOnTrack(s: State, st: Step)
    requires OnTrack(s) && Exact(st, |s.ws|)
    requires s.main.BumpSeq? && s.seqno == 0 && st.MainMoves? ==> AllSpin(s)
    ensures OnTrack(Apply(s, st)) && |Apply(s, st).ws| == |s.ws|
  {
    StepKeepsInv(s, st);
    if Posted(s) {
      NoneLostKept(s, st);
    }
    StartedKept(s, st);
    if s.main.BumpSeq? && st.MainMoves? {
      PostLosesNone(s, st.cmd);
    }
  }

  lemma WorkerKeepsStarted(s: State, w: nat)
    requires w < |s.ws|
    ensures var s' := StepWorker(s, w);
      s'.seqno == s.seqno && |s'.ws| == |s.ws| && (AllStarted(s) ==> AllStarted(s'))
  {
    var s' := StepWorker(s, w);
    assert forall v | 0 <= v < |s.ws| && v != w :: s'.ws[v] == s.ws[v];
  }

  lemma MainKeepsStarted(s: State, cmd: Command)
    ensures StepMain(s, cmd).ws == s.ws
    ensures StepMain(s, cmd).seqno == s.seqno + if s.main.BumpSeq? then 1 else 0
  {
  }

  lemma StartedKept(s: State, st: Step)
    requires OnTrack(s)
    requires s.main.BumpSeq? && s.seqno == 0 && st.MainMoves? ==> AllSpin(s)
    ensures var s' := Apply(s, st); |s'.ws| == |s.ws| && (s'.seqno > 0 ==> AllStarted(s'))
  {
    hide Inv, NoneLost, StepWorker, StepMain;
    match st
    case WorkerMoves(w) =>
      if w < |s.ws| {
        WorkerKeepsStarted(s, w);
      }
    case MainMoves(cmd) => MainKeepsStarted(s, cmd);
  }

  lemma PostLosesNone(s: State, cmd: Command)
    requires OnTrack(s) && s.main.BumpSeq? && (s.seqno == 0 ==> AllSpin(s))
    ensures NoneLost(StepMain(s, cmd))
  {
    forall w | 0 <= w < |s.ws| ensures s.ws[w] == Spin(s.seqno) {
      assert QuietWorker(s, s.ws[w]);
    }
  }

  lemma ReturnsAfter(s: State, st: Step)
    requires Exact(st, |s.ws|) && |Apply(s, st).ws| == |s.ws| && CanReturn(Apply(s, st))
    ensures CanReturn(s)
  {
    hide Apply;
    var rest :| ExactSchedule(rest, |s.ws|) && Returned(Apply(s, st), rest);
    var sched := [st] + rest;
    assert sched[1..] == rest;
    assert Returned(s, sched);
  }

  /** Steps main still has to take before it posts. */
  function ToPost(m: Main): nat {
    match m
    case LoadWorkers(_) => 7
    case StoreTotal(_, _) => 6
    case StoreCursor(_, _) => 5
    case StoreChunk(_, _) => 4
    case StoreDone(_) => 3
    case StoreTask(_) => 2
    case BumpSeq(_) => 1
    case _ => 0
  }

  /** From every state on track the call in progress can still return. */
  lemma {:induction false} OnTrackReturns(s: State)
    requires OnTrack(s) && !s.main.Panicked?
    ensures CanReturn(s)
    decreases ToPost(s.main), RankSum(s.ws, s.seqno)
  {
    var cmd := Run(0);
    if s.main.Idle? {
      assert Returned(s, []);
    } else if !Quiet(s.main) {
      var sched := Completes(s, cmd);
    } else if s.main.BumpSeq? && !AllSpin(s) {
      var w :| 0 <= w < |s.ws| && !s.ws[w].Spin?;
      StepOnTrack(s, WorkerMoves(w));
      StartRank(s, w);
      OnTrackReturns(StepWorker(s, w));
      ReturnsAfter(s, WorkerMoves(w));
    } else {
      StepOnTrack(s, MainMoves(cmd));
      if s.main.BumpSeq? {
        var sched := Completes(StepMain(s, cmd), cmd);
      } else if s.main.Inline? {
        assert Returned(StepMain(s, cmd), []);
      } else {
        OnTrackReturns(StepMain(s, cmd));
      }
      ReturnsAfter(s, MainMoves(cmd));
    }
  }

  /** A worker on its way to its first load of `seq` gets there. */
  lemma StartRank(s: State, w: nat)
    requires OnTrack(s) && Quiet(s.main) && w < |s.ws| && !s.ws[w].Spin?
    ensures var s' := StepWorker(s, w);
      s'.main == s.main && RankSum(s'.ws, s'.seqno) < RankSum(s.ws, s.seqno)
  {
    assert QuietWorker(s, s.ws[w]);
    var s' := StepWorker(s, w);
    RankUpdate(s.ws, s.seqno, w, s'.ws[w]);
  }

  lemma {:induction false} RunOnTrack(s: State, sched: seq<Step>)
    requires OnTrack(s) && ExactSchedule(sched, |s.ws|) && ReadyAtFirstPost(s, sched)
    ensures OnTrack(Execute(s, sched)) && |Execute(s, sched).ws| == |s.ws| && NeverStuck(s, sched)
    decreases |sched|
  {
    hide Apply, OnTrack;
    if !s.main.Panicked? {
      OnTrackReturns(s);
    }
    if sched != [] {
      assert Exact(sched[0], |s.ws|);
      StepOnTrack(s, sched[0]);
      RunOnTrack(Apply(s, sched[0]), sched[1..]);
    }
  }

  lemma {:induction false} StuckOtherwise(s: State, sched: seq<Step>)
    requires OnTrack(s) && ExactSchedule(sched, |s.ws|) && NeverStuck(s, sched)
    ensures ReadyAtFirstPost(s, sched)
    decreases |sched|
  {
    hide OnTrack;
    if sched != [] {
      assert Exact(sched[0], |s.ws|);
      if s.main.BumpSeq? && s.seqno == 0 && sched[0].MainMoves? {
        OnTrackInv(s);
        ReturnsIff(s, sched[0].cmd);
        assert NeverStuck(StepMain(s, sched[0].cmd), sched[1..]);
      }
      StepOnTrack(s, sched[0]);
      StuckOtherwise(Apply(s, sched[0]), sched[1..]);
    }
  }

  lemma OnTrackInv(s: State)
    requires OnTrack(s)
    ensures Inv(s)
  {
  }

  lemma InitOnTrack(n: nat)
    ensures OnTrack(Init(n)) && |Init(n).ws| == n
  {
    InitInv(n);
  }

  /** For any number of workers and any schedule, no state of the whole run is
      stuck if and only if every worker had read `seq` when the first job was
      posted; later jobs need no hypothesis of their own. */
  lemma WholeRun(n: nat, sched: seq<Step>)
    requires ExactSchedule(sched, n)
    ensures NeverStuck(Init(n), sched) <==> ReadyAtFirstPost(Init(n), sched)
  {
    InitOnTrack(n);
    if ReadyAtFirstPost(Init(n), sched) {
      RunOnTrack(Init(n), sched);
    } else if NeverStuck(Init(n), sched) {
      StuckOtherwise(Init(n), sched);
    }
  }

  /** Such a run may stop at any job: a fair continuation of more than
      `Measure` rounds finishes it. */
  lemma WholeRunFair(n: nat, sched: seq<Step>, rounds: seq<seq<Step>>)
    requires ExactSchedule(sched, n) && ReadyAtFirstPost(Init(n), sched)
    requires forall i | 0 <= i < |rounds| :: FairRound(rounds[i], n)
    ensures var s := Execute(Init(n), sched);
      !Quiet(s.main) && |rounds| > Measure(s) ==> Returned(s, Concat(rounds))
  {
    InitOnTrack(n);
    RunOnTrack(Init(n), sched);
    var s := Execute(Init(n), sched);
    if !Quiet(s.main) && |rounds| > Measure(s) {
      FairReturn(s, rounds);
    }
  }

  // ---- Where the cursor ends -------------------------------------------------------------------

  function RoundUp(a: nat, k: nat): nat
    requires k > 0
  {
    if a % k == 0 then a else a + (k - a % k)
  }

  /** Threads that have left `drain`, each after one claim past the end. */
  function ExitedWorkers(ws: seq<Worker>, fin: seq<nat>, k: nat): nat
    requires |ws| == |fin|
  {
    if ws == [] then 0
    else (if ws[0].Finishing? || fin[0] == k then 1 else 0) + ExitedWorkers(ws[1..], fin[1..], k)
  }

  function Exited(s: State): nat
    requires |s.ws| == |s.fin|
  {
    ExitedWorkers(s.ws, s.fin, s.seqno) + if s.main.Waiting? then 1 else 0
  }

  /** Past the end, the cursor counts exactly the threads that have left. */
  ghost predicate CursorExact(s: State)
    requires |s.ws| == |s.fin|
  {
    (s.main.MainDrain? || s.main.Waiting?) && s.chunk > 0 && s.cursor >= s.total ==>
      s.cursor == RoundUp(s.total, s.chunk) + Exited(s) * s.chunk
  }

  lemma {:induction false} ExitedUpdate(ws: seq<Worker>, fin: seq<nat>, k: nat, w: nat, x: Worker, f: nat)
    requires w < |ws| == |fin|
    ensures ExitedWorkers(ws[w := x], fin[w := f], k)
         == ExitedWorkers(ws, fin, k)
            - (if ws[w].Finishing? || fin[w] == k then 1 else 0) + (if x.Finishing? || f == k then 1 else 0)
  {
    if w == 0 {
      assert ws[w := x][1..] == ws[1..] && fin[w := f][1..] == fin[1..];
    } else {
      assert ws[w := x][1..] == ws[1..][w - 1 := x] && fin[w := f][1..] == fin[1..][w - 1 := f];
      ExitedUpdate(ws[1..], fin[1..], k, w - 1, x, f);
    }
  }

  lemma {:induction false} NoneExited(ws: seq<Worker>, fin: seq<nat>, k: nat)
    requires |ws| == |fin|
    ensures ExitedWorkers(ws, fin, k) == 0 <==> forall w | 0 <= w < |ws| :: !ws[w].Finishing? && fin[w] != k
    ensures ExitedWorkers(ws, fin, k) <= |ws|
    ensures (forall w | 0 <= w < |ws| :: fin[w] == k) ==> ExitedWorkers(ws, fin, k) == |ws|
  {
    if ws != [] {
      NoneExited(ws[1..], fin[1..], k);
      assert forall w | 0 < w < |ws| :: ws[w] == ws[1..][w - 1] && fin[w] == fin[1..][w - 1];
      if v :| 0 <= v < |ws[1..]| && (ws[1..][v].Finishing? || fin[1..][v] == k) {
        assert ws[v + 1].Finishing? || fin[v + 1] == k;
      }
    }
  }

  /** The claim that crosses the end lands on the next multiple of the chunk. */
  lemma LastClaim(c: nat, a: nat, k: nat)
    requires k > 0 && c % k == 0 && c < a <= c + k
    ensures c + k == RoundUp(a, k)
  {
    var q := c / k;
    assert c == k * q && c + k == k * (q + 1);
    if a == c + k {
      MultipleModulo(k, q + 1);
    } else {
      var m := a - c;
      assert a == k * q + m && 0 < m < k;
      ModuloOffset(k, q, m);
    }
  }

  lemma ModuloOffset(k: nat, q: nat, m: nat)
    requires m < k
    ensures (k * q + m) % k == m
  {
    var x := k * q + m;
    QuotientOf(k, q, x / k, m, x % k);
  }

  lemma QuotientOf(k: nat, q: nat, r: nat, m: nat, n: nat)
    requires m < k && n < k && k * q + m == k * r + n
    ensures q == r && m == n
  {
    if q < r {
      ProductMono(k, q + 1, r);
    } else if r < q {
      ProductMono(k, r + 1, q);
    }
  }

  lemma ProductMono(k: nat, a: nat, b: nat)
    requires a <= b
    ensures k * a <= k * b
  {
  }

  lemma ExitStep(e: nat, k: nat)
    ensures (e + 1) * k == e * k + k
  {
  }

  /** Before the end nobody has left. */
  lemma NobodyLeft(s: State)
    requires Posted(s) && s.chunk > 0 && s.cursor < s.total
    ensures Exited(s) == 0
  {
    NoneExited(s.ws, s.fin, s.seqno);
  }

  lemma CursorFields(s: State)
    requires Posted(s)
    ensures |s.ws| == |s.fin| && s.chunk > 0 && s.cursor % s.chunk == 0
    ensures s.main.MainDrain? ==> DrainOk(s, s.main.d)
  {
  }

  lemma WorkerKeepsCursor(s: State, w: nat)
    requires Posted(s) && CursorExact(s) && w < |s.ws|
    ensures |StepWorker(s, w).ws| == |StepWorker(s, w).fin| && CursorExact(StepWorker(s, w))
  {
    hide Inv, RoundUp, ExitedWorkers;
    CursorFields(s);
    WorkerFields(s, w);
    var s' := StepWorker(s, w);
    ExitedUpdate(s.ws, s.fin, s.seqno, w, s'.ws[w], s'.fin[w]);
    ExitStep(Exited(s), s.chunk);
    if s.cursor < s.total {
      NobodyLeft(s);
      if s.total <= s.cursor + s.chunk {
        LastClaim(s.cursor, s.total, s.chunk);
      }
    }
  }

  lemma WorkerFields(s: State, w: nat)
    requires Posted(s) && w < |s.ws|
    ensures |s.ws| == |s.fin| && PostedWorker(s, s.ws[w], s.fin[w])
    ensures var s' := StepWorker(s, w);
      && |s'.ws| == |s'.fin| == |s.ws|
      && s'.ws == s.ws[w := s'.ws[w]] && s'.fin == s.fin[w := s'.fin[w]]
  {
    var s' := StepWorker(s, w);
    assert s'.ws == s.ws[w := s'.ws[w]] && s'.fin == s.fin[w := s'.fin[w]];
  }

  lemma MainKeepsCursor(s: State, cmd: Command)
    requires Posted(s) && CursorExact(s)
    ensures CursorExact(StepMain(s, cmd))
  {
    hide Inv, RoundUp, ExitedWorkers;
    CursorFields(s);
    ExitStep(Exited(s), s.chunk);
    if s.cursor < s.total {
      NobodyLeft(s);
      if s.total <= s.cursor + s.chunk {
        LastClaim(s.cursor, s.total, s.chunk);
      }
    }
  }

  lemma StepKeepsCursor(s: State, st: Step)
    requires Inv(s) && CursorExact(s) && Exact(st, |s.ws|)
    ensures |Apply(s, st).ws| == |Apply(s, st).fin| && CursorExact(Apply(s, st))
  {
    StepKeepsInv(s, st);
    match st
    case WorkerMoves(w) =>
      if w < |s.ws| && !Quiet(s.main) {
        WorkerKeepsCursor(s, w);
      }
    case MainMoves(cmd) =>
      if !Quiet(s.main) {
        MainKeepsCursor(s, cmd);
      }
  }

  lemma {:induction false} ScheduleKeepsCursor(s: State, sched: seq<Step>)
    requires Inv(s) && CursorExact(s) && ExactSchedule(sched, |s.ws|)
    ensures |Execute(s, sched).ws| == |Execute(s, sched).fin| && CursorExact(Execute(s, sched))
    decreases |sched|
  {
    hide Apply, CursorExact;
    if sched != [] {
      assert Exact(sched[0], |s.ws|);
      StepKeepsCursor(s, sched[0]);
      StepKeepsInv(s, sched[0]);
      ScheduleKeepsCursor(Apply(s, sched[0]), sched[1..]);
    }
  }

  /** The overshoot is exact: all `n + 1` threads overrun the end once. */
  lemma FinalCursor(n: nat, sched: seq<Step>, cmd: Command)
    requires ExactSchedule(sched, n)
    ensures var s := Execute(Init(n), sched);
      s.main.Waiting? && StepMain(s, cmd).main.Idle? ==>
        s.chunk > 0 && s.cursor == RoundUp(s.total, s.chunk) + (n + 1) * s.chunk
  {
    InitInv(n);
    ScheduleKeepsInv(Init(n), sched);
    ScheduleKeepsCursor(Init(n), sched);
    var s := Execute(Init(n), sched);
    if s.main.Waiting? && StepMain(s, cmd).main.Idle? {
      ReturnState(s);
      NoneExited(s.ws, s.fin, s.seqno);
    }
  }
}
