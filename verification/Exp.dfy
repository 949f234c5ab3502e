/**
 * The elementwise-exponential module of the tensor autodiff library.
 *
 * `Forward` computes y_i = exp(x_i) on a copy of the input module's
 * output; `Backward` adds yAdj_i * y_i into the input module's output
 * adjoint, i.e. it accumulates rather than overwrites, which is the
 * contract every module of the library relies on. `exp` is the
 * algebra's exponential, taken here as an uninterpreted function.
 */
module TensorExp {
  import opened Semirings

  /** The elementwise product a_i * b_i under the algebra s. */
  function Hadamard(s: Semiring, a: seq<real>, b: seq<real>): seq<real>
    requires |a| == |b|
  {
    seq(|a|, i requires 0 <= i < |a| => s.times(a[i], b[i]))
  }

  /** The adjoint buffer after adding a contribution elementwise under s. */
  function Accumulate(s: Semiring, adj: seq<real>, contribution: seq<real>): seq<real>
    requires |adj| == |contribution|
  {
    seq(|adj|, i requires 0 <= i < |adj| => s.plus(adj[i], contribution[i]))
  }

  /** A dense tensor: its algebra, its dimensions and its values in row-major order. */
  class Tensor {
    const s: Semiring
    const dims: seq<nat>
    const values: array<real>

    /** A copy with its own value array. */
    constructor Copy(other: Tensor)
      ensures s == other.s && dims == other.dims
      ensures fresh(values) && values[..] == other.values[..]
    {
      s := other.s;
      dims := other.dims;
      var copy := other.values[..];
      values := new real[|copy|](i => if 0 <= i < |copy| then copy[i] else 0.0);
    }

    /** values_i := exp(values_i), in place. */
    method Exp(exp: real -> real)
      modifies values
      ensures forall i :: 0 <= i < values.Length ==> values[i] == exp(old(values[i]))
    {
      var i := 0;
      while i < values.Length
        invariant 0 <= i <= values.Length
        invariant forall k :: 0 <= k < i ==> values[k] == exp(old(values[k]))
        invariant forall k :: i <= k < values.Length ==> values[k] == old(values[k])
      {
        values[i] := exp(values[i]);
        i := i + 1;
      }
    }

    /** values_i := times(values_i, other_i), in place. */
    method ElemMultiply(other: Tensor)
      requires other.values != values && other.values.Length == values.Length
      modifies values
      ensures values[..] == Hadamard(s, old(values[..]), other.values[..])
    {
      var i := 0;
      while i < values.Length
        invariant 0 <= i <= values.Length
        invariant forall k :: 0 <= k < i ==> values[k] == s.times(old(values[k]), other.values[k])
        invariant forall k :: i <= k < values.Length ==> values[k] == old(values[k])
      {
        values[i] := s.times(values[i], other.values[i]);
        i := i + 1;
      }
    }

    /** values_i := plus(values_i, other_i), in place. */
    method ElemAdd(other: Tensor)
      requires other.values != values && other.values.Length == values.Length
      modifies values
      ensures values[..] == Accumulate(s, old(values[..]), other.values[..])
    {
      var i := 0;
      while i < values.Length
        invariant 0 <= i <= values.Length
        invariant forall k :: 0 <= k < i ==> values[k] == s.plus(old(values[k]), other.values[k])
        invariant forall k :: i <= k < values.Length ==> values[k] == old(values[k])
      {
        values[i] := s.plus(values[i], other.values[i]);
        i := i + 1;
      }
    }
  }

  /** The module feeding Exp: its algebra, its output tensor and its output adjoint. */
  class InputModule {
    const s: Semiring
    var output: Tensor?
    var outputAdj: Tensor?

    constructor (s: Semiring, output: Tensor?, outputAdj: Tensor?)
      ensures this.s == s && this.output == output && this.outputAdj == outputAdj
    {
      this.s := s;
      this.output := output;
      this.outputAdj := outputAdj;
    }
  }

  class Exp {
    const modInX: InputModule
    /** The module's algebra: that of its input. */
    const s: Semiring
    var y: Tensor?
    var yAdj: Tensor?

    constructor (modInX: InputModule)
      ensures this.modInX == modInX && s == modInX.s
      ensures y == null && yAdj == null
    {
      this.modInX := modInX;
      s := modInX.s;
      y := null;
      yAdj := null;
    }

    /** y := a copy of the input's output, exponentiated entry by entry. */
    method Forward(exp: real -> real) returns (r: Tensor)
      requires modInX.output != null
      modifies this
      ensures y == r && yAdj == old(yAdj) && fresh(r) && fresh(r.values)
      ensures r.s == modInX.output.s && r.dims == modInX.output.dims
      ensures r.values.Length == modInX.output.values.Length
      ensures forall i :: 0 <= i < r.values.Length ==> r.values[i] == exp(modInX.output.values[i])
      ensures modInX.output.values[..] == old(modInX.output.values[..])
    {
      var x := modInX.output;
      var copy := new Tensor.Copy(x);
      copy.Exp(exp);
      y := copy;
      r := copy;
    }

    /** The input's output adjoint += yAdj (.) y, computed on a copy of yAdj. */
    method Backward()
      requires y != null && yAdj != null && modInX.outputAdj != null
      requires yAdj.values.Length == y.values.Length == modInX.outputAdj.values.Length
      requires modInX.outputAdj.values != y.values && modInX.outputAdj.values != yAdj.values
      modifies modInX.outputAdj.values
      ensures modInX.outputAdj.values[..]
           == Accumulate(modInX.outputAdj.s, old(modInX.outputAdj.values[..]), Hadamard(yAdj.s, yAdj.values[..], y.values[..]))
      ensures y.values[..] == old(y.values[..]) && yAdj.values[..] == old(yAdj.values[..])
    {
      var tmp := new Tensor.Copy(yAdj);
      tmp.ElemMultiply(y);
      modInX.outputAdj.ElemAdd(tmp);
    }

    /** The modules this one reads: exactly its single input. */
    function GetInputs(): (r: seq<InputModule>)
      ensures |r| == 1 && r[0] == modInX
    {
      [modInX]
    }
  }

  // ------------------------------------------------------------------ lemmas

  /** Two backward calls add the contribution twice: adj_i + 2 * c_i in the real algebra. */
  lemma BackwardTwiceAddsTwice(adj: seq<real>, c: seq<real>)
    requires |adj| == |c|
    ensures forall i :: 0 <= i < |adj| ==>
      Accumulate(RealAlgebra().base, Accumulate(RealAlgebra().base, adj, c), c)[i] == adj[i] + 2.0 * c[i]
  {
    var r := RealAlgebra().base;
    var once := Accumulate(r, adj, c);
    forall i | 0 <= i < |adj|
      ensures Accumulate(r, once, c)[i] == adj[i] + 2.0 * c[i]
    {
      assert once[i] == r.plus(adj[i], c[i]) == adj[i] + c[i];
      assert Accumulate(r, once, c)[i] == r.plus(once[i], c[i]) == once[i] + c[i];
    }
  }

  /** plus is commutative and associative, as it is in the real, log and Viterbi algebras. */
  ghost predicate PlusCommutesAndAssociates(s: Semiring) {
    (forall a, b :: s.plus(a, b) == s.plus(b, a)) &&
    (forall a, b, c :: s.plus(s.plus(a, b), c) == s.plus(a, s.plus(b, c)))
  }

  /**
   * The order in which two consumers accumulate into one adjoint does not
   * matter, in any algebra whose plus is commutative and associative.
   */
  lemma AccumulationOrderIrrelevant(s: Semiring, adj: seq<real>, c1: seq<real>, c2: seq<real>)
    requires |adj| == |c1| == |c2| && PlusCommutesAndAssociates(s)
    ensures Accumulate(s, Accumulate(s, adj, c1), c2) == Accumulate(s, Accumulate(s, adj, c2), c1)
  {
    var a12 := Accumulate(s, Accumulate(s, adj, c1), c2);
    var a21 := Accumulate(s, Accumulate(s, adj, c2), c1);
    forall i | 0 <= i < |adj|
      ensures a12[i] == a21[i]
    {
      var x, y, z := adj[i], c1[i], c2[i];
      calc {
        a12[i];
        s.plus(s.plus(x, y), z);
        s.plus(x, s.plus(y, z));
        { assert s.plus(y, z) == s.plus(z, y); }
        s.plus(x, s.plus(z, y));
        s.plus(s.plus(x, z), y);
        a21[i];
      }
    }
  }

  /**
   * After Forward, the contribution Backward adds to the input adjoint is
   * yAdj_i * exp(x_i). That exp is its own derivative is not part of this
   * model, so this is the substitution of y = exp(x) only.
   */
  lemma BackwardAddsAdjointTimesExp(exp: real -> real, x: seq<real>, y: seq<real>, yAdj: seq<real>)
    requires |x| == |y| == |yAdj|
    requires forall i :: 0 <= i < |x| ==> y[i] == exp(x[i])
    ensures forall i :: 0 <= i < |x| ==> Hadamard(RealAlgebra().base, yAdj, y)[i] == yAdj[i] * exp(x[i])
  {
    forall i | 0 <= i < |x|
      ensures Hadamard(RealAlgebra().base, yAdj, y)[i] == yAdj[i] * exp(x[i])
    {
      assert Hadamard(RealAlgebra().base, yAdj, y)[i] == RealTimes(yAdj[i], y[i]);
    }
  }

  /** In the real algebra, accumulating yAdj (.) exp(x) adds yAdj_i * exp(x_i) to entry i. */
  lemma AccumulateAdjointTimesExp(exp: real -> real, x: seq<real>, adj: seq<real>, yAdj: seq<real>, out: seq<real>)
    requires |x| == |adj| == |yAdj|
    requires out == Accumulate(RealAlgebra().base, adj, Hadamard(RealAlgebra().base, yAdj, ExpAll(exp, x)))
    ensures forall i :: 0 <= i < |out| ==> out[i] == adj[i] + yAdj[i] * exp(x[i])
  {
    var c := Hadamard(RealAlgebra().base, yAdj, ExpAll(exp, x));
    BackwardAddsAdjointTimesExp(exp, x, ExpAll(exp, x), yAdj);
    forall i | 0 <= i < |out|
      ensures out[i] == adj[i] + yAdj[i] * exp(x[i])
    {
      assert out[i] == RealPlus(adj[i], c[i]);
    }
  }

  /** exp applied to every entry. */
  function ExpAll(exp: real -> real, x: seq<real>): seq<real> {
    seq(|x|, i requires 0 <= i < |x| => exp(x[i]))
  }

  /**
   * Two backward passes with nothing in between: Backward leaves y and yAdj
   * as they are, so the second call adds the same contribution again, and in
   * the real algebra each entry of the input adjoint grows by twice it.
   */
  method BackwardTwice(m: Exp)
    requires m.y != null && m.yAdj != null && m.modInX.outputAdj != null
    requires m.yAdj.values.Length == m.y.values.Length == m.modInX.outputAdj.values.Length
    requires m.modInX.outputAdj.values != m.y.values && m.modInX.outputAdj.values != m.yAdj.values
    modifies m.modInX.outputAdj.values
    ensures var c := Hadamard(m.yAdj.s, m.yAdj.values[..], m.y.values[..]);
            m.modInX.outputAdj.values[..]
              == Accumulate(m.modInX.outputAdj.s, Accumulate(m.modInX.outputAdj.s, old(m.modInX.outputAdj.values[..]), c), c)
    ensures m.modInX.outputAdj.s == RealAlgebra().base ==>
      var c := Hadamard(m.yAdj.s, m.yAdj.values[..], m.y.values[..]);
      forall i :: 0 <= i < m.modInX.outputAdj.values.Length ==>
        m.modInX.outputAdj.values[i] == old(m.modInX.outputAdj.values[i]) + 2.0 * c[i]
  {
    ghost var adj := m.modInX.outputAdj.values[..];
    ghost var c := Hadamard(m.yAdj.s, m.yAdj.values[..], m.y.values[..]);
    m.Backward();
    m.Backward();
    if m.modInX.outputAdj.s == RealAlgebra().base {
      BackwardTwiceAddsTwice(adj, c);
    }
  }

  /**
   * Forward then Backward: the input adjoint grows by yAdj (.) exp(x), x being
   * the input's output before the calls; in the real algebra by
   * yAdj_i * exp(x_i) entry by entry.
   */
  method ForwardThenBackward(m: Exp, exp: real -> real)
    requires m.modInX.output != null && m.yAdj != null && m.modInX.outputAdj != null
    requires m.yAdj.values.Length == m.modInX.output.values.Length == m.modInX.outputAdj.values.Length
    requires m.modInX.outputAdj.values != m.yAdj.values
    modifies m, m.modInX.outputAdj.values
    ensures m.yAdj == old(m.yAdj) && m.y != null && fresh(m.y)
    ensures m.y.values[..] == ExpAll(exp, old(m.modInX.output.values[..]))
    ensures m.modInX.outputAdj.values[..]
         == Accumulate(m.modInX.outputAdj.s, old(m.modInX.outputAdj.values[..]),
                       Hadamard(m.yAdj.s, m.yAdj.values[..], ExpAll(exp, old(m.modInX.output.values[..]))))
    ensures m.modInX.outputAdj.s == RealAlgebra().base && m.yAdj.s == RealAlgebra().base ==>
      forall i :: 0 <= i < m.modInX.outputAdj.values.Length ==>
        m.modInX.outputAdj.values[i] == old(m.modInX.outputAdj.values[i]) + m.yAdj.values[i] * exp(old(m.modInX.output.values[i]))
  {
    ghost var x := m.modInX.output.values[..];
    ghost var adj := m.modInX.outputAdj.values[..];
    var y := m.Forward(exp);
    assert y.values[..] == ExpAll(exp, x);
    m.Backward();
    if m.modInX.outputAdj.s == RealAlgebra().base && m.yAdj.s == RealAlgebra().base {
      AccumulateAdjointTimesExp(exp, x, adj, m.yAdj.values[..], m.modInX.outputAdj.values[..]);
    }
  }
}
