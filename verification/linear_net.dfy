/** The forward pass `main` runs in run-linear.c: 50 rounds of the same square
    layer applied from `x` into `x2` and back, which is the layer stacked 100 times. */
module LinearNet {
  import opened LinearLayer

  /** What a stack of square layers needs: an input of exactly `in` elements, the
      same as the output dimension, and parameters inside the blob. */
  predicate Stackable(x: seq<int>, p: seq<int>, lc: LinearConfig)
  {
    lc.Valid() && lc.ParamEnd() <= |p| && lc.inDim == lc.outDim && |x| == lc.inDim
  }

  /** The layer without ReLU applied `n` times to `x`. */
  function Stack(x: seq<int>, p: seq<int>, lc: LinearConfig, n: nat): (y: seq<int>)
    requires Stackable(x, p, lc)
    ensures Stackable(y, p, lc)
    decreases n
  {
    if n == 0 then x else LinearReference(Stack(x, p, lc, n - 1), p, lc, false)
  }

  /** One layer application `main` makes, in either strategy: `linear_org` or
      `linear_opt` with `relu = false`. The destination has exactly `out`
      elements, so all of it is overwritten by the layer's output. */
  method Apply(xout: seq<int>, x: seq<int>, p: seq<int>, lc: LinearConfig, optimize: bool)
    returns (xout': seq<int>)
    requires Stackable(x, p, lc) && |xout| == lc.outDim
    ensures xout' == LinearReference(x, p, lc, false)
  {
    if optimize {
      xout' := LinearOptAsWritten(xout, x, p, lc, false);
      AsWrittenMatchesReferenceWithoutRelu(xout, x, p, lc);
    } else {
      xout' := LinearOrg(xout, x, p, lc, false);
    }
    assert xout' == xout'[..lc.outDim];
  }

  /** One round of the ping-pong loop: `x2 := L(x); x := L(x2)` adds two layers
      to the stack `x` holds. */
  method Round(x: seq<int>, other: seq<int>, ghost x0: seq<int>, p: seq<int>, lc: LinearConfig,
               ghost n: nat, optimize: bool)
    returns (x': seq<int>, other': seq<int>)
    requires Stackable(x0, p, lc) && x == Stack(x0, p, lc, n) && |other| == lc.outDim
    ensures x' == Stack(x0, p, lc, n + 2) && |other'| == lc.outDim
  {
    StackStep(x0, p, lc, n);
    StackStep(x0, p, lc, n + 1);
    other' := Apply(other, x, p, lc, optimize);
    x' := Apply(x, other', p, lc, optimize);
  }

  /** The ping-pong loop of `main`: after `rounds` iterations of
      `x2 := L(x); x := L(x2)` the buffer `x` holds `L` applied `2 * rounds` times. */
  method PingPong(x0: seq<int>, x2: seq<int>, p: seq<int>, lc: LinearConfig, rounds: nat, optimize: bool)
    returns (x: seq<int>)
    requires Stackable(x0, p, lc) && |x2| == lc.outDim
    ensures x == Stack(x0, p, lc, 2 * rounds)
  {
    x := x0;
    var other := x2;
    var i := 0;
    ghost var n := 0;
    while i < rounds
      invariant 0 <= i <= rounds && n == 2 * i
      invariant |other| == lc.outDim
      invariant x == Stack(x0, p, lc, n)
    {
      x, other := Round(x, other, x0, p, lc, n, optimize);
      i, n := i + 1, n + 2;
    }
  }

  /** `main`: 50 rounds of the 4096 -> 4096 layer leave `x` equal to the
      100-layer stack. */
  method LinearForward(x0: seq<int>, x2: seq<int>, p: seq<int>, optimize: bool) returns (x: seq<int>)
    requires |x0| == Dim && |x2| == Dim && MainLayer.ParamEnd() <= |p|
    ensures x == Stack(x0, p, MainLayer, 100)
  {
    x := PingPong(x0, x2, p, MainLayer, 50, optimize);
  }

  /** The unfolding of `Stack` at `n + 1`, a proof step for `Round`. */
  lemma StackStep(x: seq<int>, p: seq<int>, lc: LinearConfig, n: nat)
    requires Stackable(x, p, lc)
    ensures Stack(x, p, lc, n + 1) == LinearReference(Stack(x, p, lc, n), p, lc, false)
  {
  }

  /** The layer as a value, the identity outside its domain. */
  function Layer(p: seq<int>, lc: LinearConfig): seq<int> -> seq<int>
  {
    x => if Stackable(x, p, lc) then LinearReference(x, p, lc, false) else x
  }

  /** `f` applied `n` times to `x`. */
  function Iterate(f: seq<int> -> seq<int>, x: seq<int>, n: nat): seq<int>
    decreases n
  {
    if n == 0 then x else f(Iterate(f, x, n - 1))
  }

  /** Iteration composes: `m` applications after `n` are `n + m`. */
  lemma {:induction false} IterateAdds(f: seq<int> -> seq<int>, x: seq<int>, n: nat, m: nat)
    ensures Iterate(f, Iterate(f, x, n), m) == Iterate(f, x, n + m)
    decreases m
  {
    if m > 0 {
      IterateAdds(f, x, n, m - 1);
    }
  }

  /** The stack is the layer iterated. */
  lemma {:induction false} StackIsIterate(x: seq<int>, p: seq<int>, lc: LinearConfig, n: nat)
    requires Stackable(x, p, lc)
    ensures Stack(x, p, lc, n) == Iterate(Layer(p, lc), x, n)
    decreases n
  {
    if n > 0 {
      StackIsIterate(x, p, lc, n - 1);
    }
  }

  /** Stacking composes: `m` layers after `n` layers are `n + m` layers. */
  lemma StackAdds(x: seq<int>, p: seq<int>, lc: LinearConfig, n: nat, m: nat)
    requires Stackable(x, p, lc)
    ensures Stack(Stack(x, p, lc, n), p, lc, m) == Stack(x, p, lc, n + m)
  {
    StackIsIterate(x, p, lc, n);
    StackIsIterate(Stack(x, p, lc, n), p, lc, m);
    StackIsIterate(x, p, lc, n + m);
    IterateAdds(Layer(p, lc), x, n, m);
  }
}
