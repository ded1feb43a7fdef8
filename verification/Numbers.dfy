/** Floating point as bit patterns under arbitrary deterministic routines, so
    equalities proved here are bit equalities whatever the rounding. The routines
    come in a record that every configuration carries. */
module Numbers {

  datatype Float = Float(bits: int)
  /** The element type of the KV cache. */
  datatype Half = Half(bits: int)
  /** One block of quantized weights, in any of the three formats. */
  datatype Block = Block(data: seq<int>)
  /** One block of quantized activations, in either format. */
  datatype Act = Act(data: seq<int>)
  /** The running accumulator of a dot kernel. */
  datatype Acc = Acc(lanes: seq<int>)

  datatype Dtype = Q8 | Q4K | Q6K
  datatype Format = ActQ8 | ActQ8K

  /** Values per block. */
  function BlockSize(t: Dtype): (n: nat)
    ensures n > 0
  {
    if t.Q8? then 32 else 256
  }

  function FormatOf(t: Dtype): Format {
    if t.Q8? then ActQ8 else ActQ8K
  }

  function FormatSize(f: Format): (n: nat)
    ensures n > 0
  {
    if f.ActQ8? then 32 else 256
  }

  /** The routines of vec.rs, rope.rs, f16.rs, q8.rs and kquant.rs. Vector
      routines are given element by element; each element may depend on whole
      operands. The model's scalar constants are folded in. */
  datatype Ops = Ops(
    rms: (seq<Float>, seq<Float>, nat) -> Float,          // rmsnorm(x, weight)[i]
    headNorm: (seq<Float>, seq<Float>, nat, nat) -> Float, // per-head rmsnorm(x, weight, head_dim)[i]
    rope: (seq<Float>, nat, nat, nat) -> Float,            // rope::apply(x, head_dim, pos)[i]
    toHalf: Float -> Half,
    score: (seq<Half>, seq<Float>) -> Float,               // dot_f16(k, q) * scale
    softmax: (seq<Float>, nat) -> Float,
    zero: Float,
    axpy: (seq<Float>, Float, seq<Half>, nat) -> Float,    // axpy_f16(out, a, v)[i]
    residual: (Float, Float) -> Float,                     // saxpy with residual_scale
    swiglu: (Float, Float) -> Float,
    dequant: (Dtype, Block, nat) -> Float,
    embedScale: Float -> Float,
    logitScale: Float -> Float,
    quantize: (Format, seq<Float>) -> Act,
    accZero: Dtype -> Acc,
    accStep: (Dtype, Acc, Block, Act) -> Acc,
    accFinish: (Dtype, Acc) -> Float)

  lemma MulMono(a: nat, b: nat, k: nat)
    requires a <= b
    ensures a * k <= b * k
  {
  }

  lemma MulStep(a: nat, k: nat)
    ensures (a + 1) * k == a * k + k
  {
  }

  lemma MulNat(a: nat, b: nat)
    ensures a * b >= 0
  {
  }
}
