/** The numeric kernels the decoder calls but whose code is not part of this
    model: `Sigmoid.value`, `Math.exp`, `SoftMax` and `ArgMax`.  They are passed
    around as function values, and `Sound` states the only facts about them
    the decoder relies on. */
module Kernels {

  /** What `ArgMax.getResult()` returns: the index of a largest element and that element. */
  datatype ArgMaxResult = ArgMaxResult(index: int, maxValue: real)

  datatype KernelSet = KernelSet(
    sigmoid: real -> real,
    exp: real -> real,
    softMax: seq<real> -> seq<real>,
    argMax: seq<real> -> ArgMaxResult)

  /** `r` names a position of a largest element of `s` and its value. */
  ghost predicate IsArgMax(s: seq<real>, r: ArgMaxResult) {
    && 0 <= r.index < |s|
    && r.maxValue == s[r.index]
    && forall j :: 0 <= j < |s| ==> s[j] <= r.maxValue
  }

  /** The facts about the kernels that the decoder depends on: the logistic
      function lies strictly between 0 and 1, the exponential is positive,
      softmax keeps the length and yields probabilities in (0, 1], and argmax
      of a non-empty vector names one of its largest entries. */
  ghost predicate Sound(k: KernelSet) {
    && (forall v :: 0.0 < k.sigmoid(v) < 1.0)
    && (forall v :: 0.0 < k.exp(v))
    && (forall s :: |k.softMax(s)| == |s|)
    && (forall s, j :: 0 <= j < |s| == |k.softMax(s)| ==> 0.0 < k.softMax(s)[j] <= 1.0)
    && (forall s {:trigger k.argMax(s)} :: |s| > 0 ==> IsArgMax(s, k.argMax(s)))
  }

  /** The first position of a largest element of a non-empty vector. */
  function FirstArgMax(s: seq<real>): (r: ArgMaxResult)
    requires |s| > 0
    ensures IsArgMax(s, r)
    ensures forall j :: 0 <= j < r.index ==> s[j] < r.maxValue
    decreases |s|
  {
    if |s| == 1 then ArgMaxResult(0, s[0])
    else
      var r := FirstArgMax(s[..|s| - 1]);
      if s[|s| - 1] > r.maxValue then ArgMaxResult(|s| - 1, s[|s| - 1]) else r
  }

  /** The facts `Sound` asks for are consistent: the constant kernels below,
      with a genuine argmax, satisfy them. */
  lemma SoundIsSatisfiable()
    ensures exists k :: Sound(k)
  {
    var k := KernelSet(v => 0.5, v => 1.0, Ones, ArgMaxOrZero);
    OnesAreProbabilities();
    ArgMaxOrZeroIsArgMax();
    assert Sound(k);
  }

  function Ones(s: seq<real>): (r: seq<real>)
    ensures |r| == |s|
  {
    seq(|s|, i => 1.0)
  }

  lemma OnesAreProbabilities()
    ensures forall s, j :: 0 <= j < |s| == |Ones(s)| ==> 0.0 < Ones(s)[j] <= 1.0
  {
  }

  lemma ArgMaxOrZeroIsArgMax()
    ensures forall s {:trigger ArgMaxOrZero(s)} :: |s| > 0 ==> IsArgMax(s, ArgMaxOrZero(s))
  {
  }

  function ArgMaxOrZero(s: seq<real>): ArgMaxResult {
    if |s| > 0 then FirstArgMax(s) else ArgMaxResult(0, 0.0)
  }
}
