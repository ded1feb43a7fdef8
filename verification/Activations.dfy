/** Scratch buffers for quantized activations. Each product quantizes its input
    into the format its matrix needs; a group sharing one input quantizes each
    needed format once. */
module Activations {
  import opened Numbers
  import opened Kernels

  /** One product of a group: `y` receives `rows` values per input row. */
  datatype Job = Job(y: array<Float>, m: Mat, rows: nat)

  /** The outputs are separate buffers. */
  ghost predicate Separate(jobs: seq<Job>, xs: array<Float>) {
    && (forall j | 0 <= j < |jobs| :: jobs[j].y != xs)
    && (forall i, j | 0 <= i < j < |jobs| :: jobs[i].y != jobs[j].y)
  }

  /** Row `b` of `q` is the quantized row `b` of `xs`. */
  ghost predicate QuantRow(o: Ops, f: Format, q: seq<Act>, xs: seq<Float>, cols: nat, b: nat) {
    var bpr := cols / FormatSize(f);
    && (b + 1) * bpr <= |q| && (b + 1) * cols <= |xs|
    && Row(q, b, bpr) == Quantized(o, f, Row(xs, b, cols))
  }

  ghost predicate QuantRows(o: Ops, f: Format, q: seq<Act>, xs: seq<Float>, cols: nat, batch: nat) {
    forall b | 0 <= b < batch :: QuantRow(o, f, q, xs, cols, b)
  }

  function RowStart(i: nat, width: nat): (s: nat)
    ensures s == i * width && s + width == (i + 1) * width
  {
    MulNat(i, width);
    MulStep(i, width);
    i * width
  }

  lemma RowSlice<T>(a: seq<T>, r: nat, width: nat)
    requires (r + 1) * width <= |a|
    ensures 0 <= r * width <= (r + 1) * width && Row(a, r, width) == a[r * width..(r + 1) * width]
  {
    MulStep(r, width);
    MulNat(r, width);
  }

  lemma RowEquals<T>(a: seq<T>, r: nat, width: nat, s: nat, v: seq<T>)
    requires s == RowStart(r, width) && s + width <= |a| && |v| == width
    requires forall i | 0 <= i < width :: a[s + i] == v[i]
    ensures Row(a, r, width) == v
  {
  }

  lemma QuantizedAt(o: Ops, f: Format, x: seq<Float>, k: nat)
    requires k < |x| / FormatSize(f)
    ensures Quantized(o, f, x)[k] == QuantizeBlock(o, f, x, k)
  {
  }

  lemma RowOutside<T>(a: seq<T>, a': seq<T>, i: nat, r: nat, width: nat)
    requires |a| == |a'| && r != i && (r + 1) * width <= |a|
    requires forall k | 0 <= k < |a| && !(i * width <= k < (i + 1) * width) :: a'[k] == a[k]
    ensures Row(a', r, width) == Row(a, r, width)
  {
    MulStep(i, width);
    MulStep(r, width);
    if r < i {
      MulMono(r + 1, i, width);
    } else {
      MulMono(i + 1, r, width);
    }
  }

  lemma QuantRowsGrow(o: Ops, f: Format, q: seq<Act>, q': seq<Act>, xs: seq<Float>, cols: nat, b: nat)
    requires |q| == |q'| && QuantRows(o, f, q, xs, cols, b) && QuantRow(o, f, q', xs, cols, b)
    requires var bpr := cols / FormatSize(f);
      forall i | 0 <= i < |q| && !(b * bpr <= i < (b + 1) * bpr) :: q'[i] == q[i]
    ensures QuantRows(o, f, q', xs, cols, b + 1)
  {
    forall c | 0 <= c < b ensures QuantRow(o, f, q', xs, cols, c) {
      assert QuantRow(o, f, q, xs, cols, c);
      RowOutside(q, q', b, c, cols / FormatSize(f));
    }
  }

  class Acts {
    const q8: array<Act>
    const q8k: array<Act>

    constructor (q8: array<Act>, q8k: array<Act>)
      requires q8 != q8k
      ensures this.q8 == q8 && this.q8k == q8k
    {
      this.q8 := q8;
      this.q8k := q8k;
    }

    function Buffer(f: Format): array<Act> {
      if f.ActQ8? then q8 else q8k
    }

    /** Quantize one row into its place in the buffer. */
    method QuantizeRow(o: Ops, f: Format, x: seq<Float>, b: nat)
      requires (b + 1) * (|x| / FormatSize(f)) <= Buffer(f).Length
      modifies Buffer(f)
      ensures Row(Buffer(f)[..], b, |x| / FormatSize(f)) == Quantized(o, f, x)
      ensures var bpr := |x| / FormatSize(f);
        forall i | 0 <= i < Buffer(f).Length && !(b * bpr <= i < (b + 1) * bpr) :: Buffer(f)[i] == old(Buffer(f)[i])
    {
      hide Quantized;
      var bpr := |x| / FormatSize(f);
      var q := Buffer(f);
      var s := RowStart(b, bpr);
      ghost var want := Quantized(o, f, x);
      var k := 0;
      while k < bpr
        invariant 0 <= k <= bpr
        invariant forall i | 0 <= i < k :: q[s + i] == want[i]
        invariant forall i | 0 <= i < q.Length && !(s <= i < s + bpr) :: q[i] == old(q[i])
      {
        q[s + k] := QuantizeBlock(o, f, x, k);
        QuantizedAt(o, f, x, k);
        k := k + 1;
      }
      RowEquals(q[..], b, bpr, s, want);
    }

    /** Quantize `batch` rows of `xs`. */
    method QuantizeRows(o: Ops, f: Format, xs: array<Float>, batch: nat, cols: nat)
      requires batch * cols <= xs.Length && batch * (cols / FormatSize(f)) <= Buffer(f).Length
      modifies Buffer(f)
      ensures QuantRows(o, f, Buffer(f)[..], xs[..], cols, batch)
    {
      hide Quantized, Row;
      var bpr := cols / FormatSize(f);
      var b := 0;
      while b < batch
        invariant 0 <= b <= batch
        invariant QuantRows(o, f, Buffer(f)[..], xs[..], cols, b)
      {
        RowFits(b, batch, cols, xs.Length);
        RowFits(b, batch, bpr, Buffer(f).Length);
        ghost var before := Buffer(f)[..];
        QuantizeRow(o, f, xs[b * cols..(b + 1) * cols], b);
        RowSlice(xs[..], b, cols);
        QuantRowsGrow(o, f, before, Buffer(f)[..], xs[..], cols, b);
        b := b + 1;
      }
    }

    ghost predicate Room(jobs: seq<Job>, batch: nat, cols: nat) {
      forall j | 0 <= j < |jobs| ::
        && Shaped(jobs[j].m, jobs[j].rows, cols) && jobs[j].y.Length >= batch * jobs[j].rows
        && batch * (cols / BlockSize(jobs[j].m.dtype)) <= Buffer(FormatOf(jobs[j].m.dtype)).Length
    }

    /** Batched products sharing one input. */
    method MatmulGroup(o: Ops, jobs: seq<Job>, xs: array<Float>, batch: nat, cols: nat, split: nat -> seq<(nat, nat)>, fast: bool)
      requires q8 != q8k && batch * cols <= xs.Length && Room(jobs, batch, cols) && Separate(jobs, xs)
      requires forall j | 0 <= j < |jobs| :: Covers(split(jobs[j].rows), jobs[j].rows)
      modifies q8, q8k, set j | j in jobs :: j.y
      ensures forall j | 0 <= j < |jobs| :: Products(o, jobs[j].y[..], jobs[j].m, jobs[j].rows, xs[..], batch, cols)
    {
      var q8Ready, q8kReady := false, false;
      var j := 0;
      while j < |jobs|
        invariant 0 <= j <= |jobs|
        invariant xs[..] == old(xs[..])
        invariant q8Ready ==> batch * (cols / 32) <= q8.Length && QuantRows(o, ActQ8, q8[..], xs[..], cols, batch)
        invariant q8kReady ==> batch * (cols / 256) <= q8k.Length && QuantRows(o, ActQ8K, q8k[..], xs[..], cols, batch)
        invariant forall i | 0 <= i < j :: Products(o, jobs[i].y[..], jobs[i].m, jobs[i].rows, xs[..], batch, cols)
      {
        var f := FormatOf(jobs[j].m.dtype);
        if f.ActQ8? {
          if !q8Ready {
            QuantizeRows(o, ActQ8, xs, batch, cols);
            q8Ready := true;
          }
        } else {
          if !q8kReady {
            QuantizeRows(o, ActQ8K, xs, batch, cols);
            q8kReady := true;
          }
        }
        RunJob(o, jobs[j], f, xs, batch, cols, split(jobs[j].rows), fast);
        j := j + 1;
      }
    }

    method RunJob(o: Ops, job: Job, f: Format, xs: array<Float>, batch: nat, cols: nat, ranges: seq<(nat, nat)>, fast: bool)
      requires q8 != q8k && batch * cols <= xs.Length && job.y != xs && f == FormatOf(job.m.dtype)
      requires Shaped(job.m, job.rows, cols) && job.y.Length >= batch * job.rows
      requires batch * (cols / BlockSize(job.m.dtype)) <= Buffer(f).Length && Covers(ranges, job.rows)
      requires QuantRows(o, f, Buffer(f)[..], xs[..], cols, batch)
      modifies job.y
      ensures Products(o, job.y[..], job.m, job.rows, xs[..], batch, cols)
    {
      var bpr := cols / BlockSize(job.m.dtype);
      MulNat(batch, bpr);
      var q := Buffer(f)[..batch * bpr];
      Matmul(o, job.y, job.m, q, job.rows, bpr, batch, ranges, fast);
      forall b | 0 <= b < batch ensures Product(o, job.y[..], job.m, job.rows, xs[..], cols, b) {
        JobRow(o, job.y[..], job.m, job.rows, Buffer(f)[..], q, xs[..], batch, cols, bpr, b);
      }
    }

    ghost predicate VecRoom(jobs: seq<Job>, cols: nat) {
      forall j | 0 <= j < |jobs| ::
        && Shaped(jobs[j].m, jobs[j].rows, cols) && jobs[j].y.Length == jobs[j].rows
        && cols / BlockSize(jobs[j].m.dtype) <= Buffer(FormatOf(jobs[j].m.dtype)).Length
    }

    /** Single-vector products sharing one input. */
    method MatvecGroup(o: Ops, jobs: seq<Job>, x: array<Float>, split: nat -> seq<(nat, nat)>)
      requires q8 != q8k && VecRoom(jobs, x.Length) && Separate(jobs, x)
      requires forall j | 0 <= j < |jobs| :: Covers(split(jobs[j].rows), jobs[j].rows)
      modifies q8, q8k, set j | j in jobs :: j.y
      ensures forall j | 0 <= j < |jobs| ::
        Shaped(jobs[j].m, jobs[j].rows, x.Length) && jobs[j].y[..] == MatVec(o, jobs[j].m, jobs[j].rows, x[..])
    {
      hide MatVec, Quantized;
      var cols := x.Length;
      var q8Ready, q8kReady := false, false;
      var j := 0;
      while j < |jobs|
        invariant 0 <= j <= |jobs|
        invariant x[..] == old(x[..])
        invariant q8Ready ==> cols / 32 <= q8.Length && q8[..cols / 32] == Quantized(o, ActQ8, x[..])
        invariant q8kReady ==> cols / 256 <= q8k.Length && q8k[..cols / 256] == Quantized(o, ActQ8K, x[..])
        invariant forall i | 0 <= i < j :: jobs[i].y[..] == MatVec(o, jobs[i].m, jobs[i].rows, x[..])
      {
        var f := FormatOf(jobs[j].m.dtype);
        if f.ActQ8? {
          if !q8Ready {
            QuantizeRow(o, ActQ8, x[..], 0);
            FirstRow(q8[..], cols / 32);
            q8Ready := true;
          }
        } else {
          if !q8kReady {
            QuantizeRow(o, ActQ8K, x[..], 0);
            FirstRow(q8k[..], cols / 256);
            q8kReady := true;
          }
        }
        RunVecJob(o, jobs[j], f, x, split(jobs[j].rows));
        j := j + 1;
      }
    }

    /** One batched product with its own quantized input. */
    method MatmulOne(o: Ops, job: Job, xs: array<Float>, batch: nat, cols: nat, ranges: seq<(nat, nat)>, fast: bool)
      requires q8 != q8k && batch * cols <= xs.Length && job.y != xs && Covers(ranges, job.rows)
      requires Shaped(job.m, job.rows, cols) && job.y.Length >= batch * job.rows
      requires batch * (cols / BlockSize(job.m.dtype)) <= Buffer(FormatOf(job.m.dtype)).Length
      modifies q8, q8k, job.y
      ensures Products(o, job.y[..], job.m, job.rows, xs[..], batch, cols)
    {
      var f := FormatOf(job.m.dtype);
      QuantizeRows(o, f, xs, batch, cols);
      RunJob(o, job, f, xs, batch, cols, ranges, fast);
    }

    /** One single-vector product. */
    method MatvecOne(o: Ops, job: Job, x: array<Float>, ranges: seq<(nat, nat)>)
      requires q8 != q8k && job.y != x && Covers(ranges, job.rows)
      requires Shaped(job.m, job.rows, x.Length) && job.y.Length == job.rows
      requires x.Length / BlockSize(job.m.dtype) <= Buffer(FormatOf(job.m.dtype)).Length
      modifies q8, q8k, job.y
      ensures job.y[..] == MatVec(o, job.m, job.rows, x[..])
    {
      var f := FormatOf(job.m.dtype);
      QuantizeRow(o, f, x[..], 0);
      FirstRow(Buffer(f)[..], x.Length / FormatSize(f));
      RunVecJob(o, job, f, x, ranges);
    }

    method RunVecJob(o: Ops, job: Job, f: Format, x: array<Float>, ranges: seq<(nat, nat)>)
      requires q8 != q8k && job.y != x && f == FormatOf(job.m.dtype)
      requires Shaped(job.m, job.rows, x.Length) && job.y.Length == job.rows && Covers(ranges, job.rows)
      requires x.Length / FormatSize(f) <= Buffer(f).Length
      requires Buffer(f)[..x.Length / FormatSize(f)] == Quantized(o, f, x[..])
      modifies job.y
      ensures job.y[..] == MatVec(o, job.m, job.rows, x[..])
    {
      var q := Buffer(f)[..x.Length / FormatSize(f)];
      Matvec(o, job.y, job.m, q, job.rows, ranges);
      VecIsProduct(o, job.y[..], job.m, job.rows, x[..]);
    }
  }

  lemma FirstRow<T>(a: seq<T>, width: nat)
    requires width <= |a|
    ensures Row(a, 0, width) == a[..width]
  {
  }

  ghost predicate Product(o: Ops, y: seq<Float>, m: Mat, rows: nat, xs: seq<Float>, cols: nat, b: nat) {
    && Shaped(m, rows, cols) && (b + 1) * cols <= |xs| && (b + 1) * rows <= |y|
    && Row(y, b, rows) == MatVec(o, m, rows, Row(xs, b, cols))
  }

  /** Every row of `y` is the product of `m` with the same row of `xs`. */
  ghost predicate Products(o: Ops, y: seq<Float>, m: Mat, rows: nat, xs: seq<Float>, batch: nat, cols: nat) {
    forall b | 0 <= b < batch :: Product(o, y, m, rows, xs, cols, b)
  }

  lemma RowQuantized(o: Ops, f: Format, q: seq<Act>, xs: seq<Float>, cols: nat, batch: nat, b: nat)
    requires b < batch && QuantRows(o, f, q, xs, cols, batch)
    ensures QuantRow(o, f, q, xs, cols, b)
    ensures var bpr := cols / FormatSize(f);
      (b + 1) * bpr <= |q| && (b + 1) * cols <= |xs| && Row(q, b, bpr) == Quantized(o, f, Row(xs, b, cols))
  {
  }

  /** Row `b` of a product over the first `batch` quantized rows. */
  lemma JobRow(o: Ops, y: seq<Float>, m: Mat, rows: nat, buf: seq<Act>, q: seq<Act>, xs: seq<Float>, batch: nat, cols: nat, bpr: nat, b: nat)
    requires b < batch && batch * cols <= |xs| && Shaped(m, rows, cols) && |y| >= batch * rows
    requires |q| <= |buf| && q == buf[..|q|] && QuantRows(o, FormatOf(m.dtype), buf, xs, cols, batch)
    requires bpr == cols / BlockSize(m.dtype) && BatchShape(m, q, rows, bpr, batch)
    requires forall r | 0 <= r < rows :: RowDone(o, y, m, q, rows, bpr, batch, r)
    ensures Product(o, y, m, rows, xs, cols, b)
  {
    hide RowDone, QuantRow, MatVec;
    RowFits(b, batch, cols, |xs|);
    RowFits(b, batch, bpr, |q|);
    RowQuantized(o, FormatOf(m.dtype), buf, xs, cols, batch, b);
    assert Row(q, b, bpr) == Row(buf, b, bpr);
    RowsAreProducts(o, y, m, q, rows, bpr, batch, b, Row(xs, b, cols));
  }
}
