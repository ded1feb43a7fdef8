/** A matrix product run on the pool: whatever the schedule and however the stores
    of the threads interleave, the finished output. */
module PoolProducts {
  import opened Numbers
  import opened Kernels
  import Pool

  /** The stores of the rows that have run are among `cells`. */
  ghost predicate StoresOf(s: Pool.State, batch: nat, cells: seq<(nat, nat)>) {
    forall b: nat, r: nat | b < batch && r < |s.hits| && s.hits[r] > 0 :: (b, r) in cells
  }

  /** Main is about to come back from the job. */
  predicate Returning(s: Pool.State, cmd: Pool.Command) {
    s.main.Waiting? && Pool.StepMain(s, cmd).main.Idle?
  }

  /** When the pool returns from a batched product, its output is finished. */
  lemma BatchFinished(n: nat, sched: seq<Pool.Step>, cmd: Pool.Command,
                      o: Ops, y: seq<Float>, m: Mat, xs: seq<Act>, bpr: nat, batch: nat, cells: seq<(nat, nat)>)
    requires Pool.ExactSchedule(sched, n)
    requires var s := Pool.Execute(Pool.Init(n), sched);
      && Returning(s, cmd) && BatchShape(m, xs, s.total, bpr, batch) && |y| >= batch * s.total
      && InGrid(cells, s.total, batch) && StoresOf(s, batch, cells)
    ensures var s := Pool.Execute(Pool.Init(n), sched); var y' := Stored(o, y, m, xs, s.total, bpr, batch, cells);
      && (forall r: nat | r < s.total :: RowDone(o, y', m, xs, s.total, bpr, batch, r))
      && (forall i: nat | batch * s.total <= i < |y| :: y'[i] == y[i])
  {
    hide BatchShape, RowDone, Pool.Execute;
    Pool.ExactlyOnce(n, sched, cmd);
    var s := Pool.Execute(Pool.Init(n), sched);
    AnyInterleaving(o, y, m, xs, s.total, bpr, batch, cells);
  }

  /** When the pool returns from an unbatched product, its output is the product. */
  lemma VectorFinished(n: nat, sched: seq<Pool.Step>, cmd: Pool.Command,
                       o: Ops, y: seq<Float>, m: Mat, xs: seq<Act>, order: seq<nat>)
    requires Pool.ExactSchedule(sched, n)
    requires var s := Pool.Execute(Pool.Init(n), sched);
      && Returning(s, cmd) && s.total * |xs| <= |m.blocks| && |y| == s.total
      && (forall k | 0 <= k < |order| :: order[k] < s.total)
      && forall r: nat | r < |s.hits| && s.hits[r] > 0 :: r in order
    ensures var rows := Pool.Execute(Pool.Init(n), sched).total;
      EntriesStored(o, y, m, xs, order) == seq(rows, r requires 0 <= r < rows => Entry(o, m, r, xs))
  {
    hide Pool.Execute, Entry;
    Pool.ExactlyOnce(n, sched, cmd);
    var s := Pool.Execute(Pool.Init(n), sched);
    AnyStores(o, y, m, xs, s.total, order);
  }
}
