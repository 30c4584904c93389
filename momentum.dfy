/** Stochastic gradient descent with momentum.  Each registered tensor gets
  * a velocity buffer of its own; one update scales the velocity by the
  * momentum, subtracts the learning rate times the gradient, and adds the
  * new velocity to the data.  Arithmetic is on exact reals. */
module Optimizers {
  import opened Tensors
  import opened Blocks

  /** The velocity after one update, entry by entry. */
  function Velocity(v: seq<real>, grad: seq<real>, lr: real, m: real): (r: seq<real>)
    requires |grad| == |v|
    ensures |r| == |v|
  {
    seq(|v|, i requires 0 <= i < |v| => v[i] * m - lr * grad[i])
  }

  /** The data after one update with the new velocity `v`. */
  function Advance(data: seq<real>, v: seq<real>): (r: seq<real>)
    requires |v| == |data|
    ensures |r| == |data|
  {
    seq(|data|, i requires 0 <= i < |data| => data[i] + v[i])
  }

  /** A zero velocity and a zero gradient are a fixed point of the update:
    * the data and the velocity stay as they are. */
  lemma ZeroIsFixedPoint(data: seq<real>, lr: real, m: real)
    ensures Velocity(ZeroBuffer(|data|), ZeroBuffer(|data|), lr, m) == ZeroBuffer(|data|)
    ensures Advance(data, ZeroBuffer(|data|)) == data
  {
    var z := ZeroBuffer(|data|);
    forall i | 0 <= i < |data|
      ensures Velocity(z, z, lr, m)[i] == z[i]
    {
      assert z[i] * m - lr * z[i] == 0.0;
    }
  }

  /** One entry of a tensor under the optimizer: its parameter value and its
    * velocity. */
  datatype Entry = Entry(param: real, velocity: real)

  /** An entry after `k` updates with the same gradient `g`. */
  function Iterate(e: Entry, g: real, lr: real, m: real, k: nat): Entry
  {
    if k == 0 then e
    else
      var prev := Iterate(e, g, lr, m, k - 1);
      var v := prev.velocity * m - lr * g;
      Entry(prev.param + v, v)
  }

  /** One update of the buffers is, entry by entry, one step of `Iterate`. */
  lemma UpdateIsOneStep(data: seq<real>, v: seq<real>, grad: seq<real>, lr: real, m: real, i: nat)
    requires |v| == |data| && |grad| == |data| && i < |data|
    ensures var v' := Velocity(v, grad, lr, m);
      Entry(Advance(data, v')[i], v'[i]) == Iterate(Entry(data[i], v[i]), grad[i], lr, m, 1)
  {
  }

  /** An entry at rest under a zero gradient stays where it is, however many
    * updates run. */
  lemma {:induction false} RestStaysAtRest(p: real, lr: real, m: real, k: nat)
    ensures Iterate(Entry(p, 0.0), 0.0, lr, m, k) == Entry(p, 0.0)
  {
    if k > 0 {
      RestStaysAtRest(p, lr, m, k - 1);
    }
  }

  /** Two updates from rest with the same gradient `g`: the velocity is
    * `-(1 + m) * lr * g` and the parameter has moved by `-(2 + m) * lr * g`. */
  lemma TwoStepsFromRest(p: real, g: real, lr: real, m: real)
    ensures Iterate(Entry(p, 0.0), g, lr, m, 2) == Entry(p - (2.0 + m) * (lr * g), -((1.0 + m) * (lr * g)))
  {
    var a := lr * g;
    assert Iterate(Entry(p, 0.0), g, lr, m, 1) == Entry(p - a, -a);
    assert -a * m - a == -((1.0 + m) * a);
  }

  /** Parameter 1, gradient 2, learning rate 0.1, momentum 0.9: the parameter
    * is 0.8 after one update and 0.42 after two. */
  lemma ExampleSteps()
    ensures Iterate(Entry(1.0, 0.0), 2.0, 0.1, 0.9, 1) == Entry(0.8, -0.2)
    ensures Iterate(Entry(1.0, 0.0), 2.0, 0.1, 0.9, 2) == Entry(0.42, -0.38)
  {
    TwoStepsFromRest(1.0, 2.0, 0.1, 0.9);
  }

  /** The optimizer: its hyperparameters and one parameter record per
    * registered tensor, in registration order. */
  class MomentumSGD {
    var LearningRate: real
    var Momentum: real
    var OptimizerParameters: seq<MomentumSGDParameter>

    /** `new MomentumSGD(learningRate, momentum)`. */
    constructor (learningRate: real, momentum: real)
      ensures LearningRate == learningRate && Momentum == momentum
      ensures OptimizerParameters == []
    {
      LearningRate := learningRate;
      Momentum := momentum;
      OptimizerParameters := [];
    }

    /** `new MomentumSGD()`, with the default hyperparameters. */
    constructor Default()
      ensures LearningRate == 0.01 && Momentum == 0.9
      ensures OptimizerParameters == []
    {
      LearningRate := 0.01;
      Momentum := 0.9;
      OptimizerParameters := [];
    }

    /** `q` is the record `AddFunctionParameters` makes for `p`. */
    ghost predicate Registers(q: MomentumSGDParameter, p: NdArray)
      reads q.v, p
    {
      q.FunctionParameter == p && q.optimizer == this && q.v[..] == ZeroBuffer(p.Data.Length)
    }

    /** Registers each tensor of `functionParameters`, in order, with a fresh
      * zero velocity of its data's length. */
    method AddFunctionParameters(functionParameters: seq<NdArray>)
      modifies this`OptimizerParameters
      ensures |OptimizerParameters| == |old(OptimizerParameters)| + |functionParameters|
      ensures OptimizerParameters[..|old(OptimizerParameters)|] == old(OptimizerParameters)
      ensures forall k :: |old(OptimizerParameters)| <= k < |OptimizerParameters| ==>
        && Registers(OptimizerParameters[k], functionParameters[k - |old(OptimizerParameters)|])
        && fresh(OptimizerParameters[k]) && fresh(OptimizerParameters[k].v)
    {
      ghost var before := OptimizerParameters;
      var i := 0;
      while i < |functionParameters|
        invariant 0 <= i <= |functionParameters|
        invariant |OptimizerParameters| == |before| + i
        invariant OptimizerParameters[..|before|] == before
        invariant forall k :: |before| <= k < |OptimizerParameters| ==>
          && Registers(OptimizerParameters[k], functionParameters[k - |before|])
          && fresh(OptimizerParameters[k]) && fresh(OptimizerParameters[k].v)
      {
        var q := new MomentumSGDParameter(functionParameters[i], this);
        OptimizerParameters := OptimizerParameters + [q];
        i := i + 1;
      }
    }
  }

  /** One registered tensor and its velocity buffer. */
  class MomentumSGDParameter {
    const FunctionParameter: NdArray
    const optimizer: MomentumSGD
    const v: array<real>

    /** What the update loop reads: the velocity and the gradient cover the
      * data, and the three buffers are distinct. */
    ghost predicate Valid()
      reads this, FunctionParameter
    {
      && v.Length == FunctionParameter.Data.Length
      && FunctionParameter.Grad.Length == FunctionParameter.Data.Length
      && v != FunctionParameter.Data && v != FunctionParameter.Grad
      && FunctionParameter.Data != FunctionParameter.Grad
    }

    /** `new MomentumSGDParameter(functionParameter, optimizer)`: a zero
      * velocity of the data's length. */
    constructor (functionParameter: NdArray, optimizer: MomentumSGD)
      ensures FunctionParameter == functionParameter && this.optimizer == optimizer
      ensures fresh(v) && v[..] == ZeroBuffer(functionParameter.Data.Length)
      ensures Valid() <==> functionParameter.Grad.Length == functionParameter.Data.Length
                           && functionParameter.Data != functionParameter.Grad
    {
      FunctionParameter := functionParameter;
      this.optimizer := optimizer;
      v := new real[functionParameter.Data.Length](_ => 0.0);
    }

    /** One update of every entry of the tensor: the velocity becomes
      * `Velocity` of the old velocity and the gradient, and the data moves by
      * the new velocity.  The gradient and the hyperparameters are read only. */
    method UpdateFunctionParameters()
      requires Valid()
      modifies v, FunctionParameter.Data
      ensures v[..] == Velocity(old(v[..]), FunctionParameter.Grad[..], optimizer.LearningRate, optimizer.Momentum)
      ensures FunctionParameter.Data[..] == Advance(old(FunctionParameter.Data[..]), v[..])
      ensures FunctionParameter.Grad[..] == old(FunctionParameter.Grad[..])
    {
      var data, grad := FunctionParameter.Data, FunctionParameter.Grad;
      var lr, m := optimizer.LearningRate, optimizer.Momentum;
      ghost var v0, d0, g0 := v[..], data[..], grad[..];
      ghost var v1 := Velocity(v0, g0, lr, m);
      assert v != data && v != grad && data != grad;
      var n := data.Length;
      var i := 0;
      while i < n
        invariant 0 <= i <= n && n == data.Length == v.Length
        invariant v != data && v != grad && data != grad
        invariant forall k :: 0 <= k < i ==> v[k] == v1[k]
        invariant forall k :: 0 <= k < i ==> data[k] == d0[k] + v[k]
        invariant forall k :: i <= k < n ==> v[k] == v0[k] && data[k] == d0[k]
        invariant grad[..] == g0
      {
        v[i] := v[i] * m;
        v[i] := v[i] - lr * grad[i];
        assert v[i] == v1[i];
        data[i] := data[i] + v[i];
        i := i + 1;
      }
      assert v[..] == v1;
      assert forall k :: 0 <= k < n ==> data[..][k] == Advance(d0, v[..])[k];
    }
  }
}
