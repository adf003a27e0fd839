/** What `Node.get_output` computes from the Units' output lists, stated as
    functions of those lists and the weights. Each flux is one `real`; the
    Node's methods that run the loops are proved equal to these functions. */
module Combine {
  import opened Wrappers

  /** The two shapes of the weights list: one scalar per Unit, or one mask per
      Unit whose `None` entries mean "this Unit gives nothing here". */
  datatype Weights =
    | Uniform(scalars: seq<real>)
    | Masked(masks: seq<seq<Option<real>>>)

  /** `o[k]`, read as 0 past the end (only used where `k` is in range). */
  function FluxAt(o: seq<real>, k: nat): (r: real)
  {
    if k < |o| then o[k] else 0.0
  }

  // ---------------------------------------------------------------------
  // Uniform scalar weights

  /** Sum over the first `n` Units of `o_i[k] * w_i`. */
  function WeightedSum(outs: seq<seq<real>>, ws: seq<real>, n: nat, k: nat): (r: real)
    requires n <= |outs| && n <= |ws|
  {
    if n == 0 then 0.0 else WeightedSum(outs, ws, n - 1, k) + FluxAt(outs[n - 1], k) * ws[n - 1]
  }

  /** The uniform branch: `weights[0]` must exist, there must be a Unit, every
      later Unit must supply as many fluxes as the first; the result has the
      first Unit's length and holds the weighted sum at every position. Only
      the first min(#units, #weights) pairs take part, as with `zip`. */
  function UniformSpec(outs: seq<seq<real>>, ws: seq<real>): (r: Result<seq<real>>)
  {
    var n := Min(|outs|, |ws|);
    if |ws| == 0 then Err(IndexError)
    else if n == 0 then Err(UnboundOutput)
    else if exists i :: 0 < i < n && |outs[i]| < |outs[0]| then Err(IndexError)
    else Ok(seq(|outs[0]|, k requires 0 <= k < |outs[0]| => WeightedSum(outs, ws, n, k)))
  }

  // ---------------------------------------------------------------------
  // Per-flux masks

  /** Number of non-null entries of a mask. */
  function CountSome(m: seq<Option<real>>): (r: nat)
  {
    if |m| == 0 then 0 else CountSome(m[..|m| - 1]) + (if m[|m| - 1].Some? then 1 else 0)
  }

  /** What a Unit with mask `m` and outputs `o` adds at position `j`: nothing
      where its mask is null (or absent), otherwise its next unused output,
      the one at index "non-null entries of `m` before `j`", times the weight. */
  function Contribution(m: seq<Option<real>>, o: seq<real>, j: nat): (r: real)
  {
    if j < |m| && m[j].Some? then FluxAt(o, CountSome(m[..j])) * m[j].value else 0.0
  }

  /** Sum of the first `n` Units' contributions at position `j`. */
  function MaskedSum(outs: seq<seq<real>>, ms: seq<seq<Option<real>>>, n: nat, j: nat): (r: real)
    requires n <= |outs| && n <= |ms|
  {
    if n == 0 then 0.0 else MaskedSum(outs, ms, n - 1, j) + Contribution(ms[n - 1], outs[n - 1], j)
  }

  /** Unit `i` can be combined without an index error: it has at least one
      output per non-null mask entry and, if it is not the first Unit, it has
      no non-null entry past the first mask's length. */
  predicate MaskFits(o: seq<real>, m: seq<Option<real>>, i: nat, firstLength: nat)
  {
    CountSome(m) <= |o| && (i > 0 ==> forall j :: firstLength <= j < |m| ==> m[j].None?)
  }

  /** The masked branch: the result has the first mask's length; position `j`
      holds the sum of every Unit's contribution there. */
  function MaskedSpec(outs: seq<seq<real>>, ms: seq<seq<Option<real>>>): (r: Result<seq<real>>)
  {
    var n := Min(|outs|, |ms|);
    if |ms| == 0 then Err(IndexError)
    else if n == 0 then Err(UnboundOutput)
    else if exists i :: 0 <= i < n && !MaskFits(outs[i], ms[i], i, |ms[0]|) then Err(IndexError)
    else Ok(seq(|ms[0]|, j requires 0 <= j < |ms[0]| => MaskedSum(outs, ms, n, j)))
  }

  /** The combined output for either shape of weights. */
  function Combined(outs: seq<seq<real>>, w: Weights): (r: Result<seq<real>>)
  {
    match w
    case Uniform(ws) => UniformSpec(outs, ws)
    case Masked(ms) => MaskedSpec(outs, ms)
  }

  // ---------------------------------------------------------------------
  // Properties

  /** The uniform example: weights [0.25, 0.75], outputs [2.0] and [3.0]. */
  lemma UniformExample()
    ensures UniformSpec([[2.0], [3.0]], [0.25, 0.75]) == Ok([2.75])
  {
    var outs, ws := [[2.0], [3.0]], [0.25, 0.75];
    assert WeightedSum(outs, ws, 1, 0) == 0.5;
    assert WeightedSum(outs, ws, 2, 0) == 2.75;
    assert !exists i :: 0 < i < 2 && |outs[i]| < |outs[0]|;
    assert UniformSpec(outs, ws).value == [2.75];
  }

  /** The mask example: masks [[1.0, None], [None, 1.0]]; the second Unit's
      single non-null entry consumes its FIRST output, so position 1 gets `b0`. */
  lemma MaskedExample(a0: real, a1: real, b0: real, b1: real)
    ensures MaskedSpec([[a0, a1], [b0, b1]], [[Some(1.0), None], [None, Some(1.0)]]) == Ok([a0, b0])
  {
    var ms := [[Some(1.0), None], [None, Some(1.0)]];
    var outs := [[a0, a1], [b0, b1]];
    assert CountSome(ms[0]) == 1 && CountSome(ms[1]) == 1 by {
      assert ms[0][..1] == [Some(1.0)] && ms[1][..1] == [None];
    }
    assert Contribution(ms[0], outs[0], 0) == a0 && Contribution(ms[0], outs[0], 1) == 0.0;
    assert Contribution(ms[1], outs[1], 0) == 0.0;
    assert Contribution(ms[1], outs[1], 1) == b0 by {
      var none: seq<Option<real>> := [None];
      assert ms[1][..1] == none && none[..0] == [];
    }
    assert MaskedSum(outs, ms, 1, 0) == a0 && MaskedSum(outs, ms, 1, 1) == 0.0;
    assert MaskedSum(outs, ms, 2, 0) == a0;
    assert MaskedSum(outs, ms, 2, 1) == b0;
    assert forall i :: 0 <= i < 2 ==> MaskFits(outs[i], ms[i], i, 2);
    assert MaskedSpec(outs, ms).value == [a0, b0];
  }

  /** Appending fluxes to a later Unit's output changes nothing: extra fluxes
      are ignored. */
  lemma UniformIgnoresExtraFluxes(outs: seq<seq<real>>, ws: seq<real>, i: nat, extra: seq<real>)
    requires 0 < i < |outs|
    requires UniformSpec(outs, ws).Ok?
    ensures UniformSpec(outs[i := outs[i] + extra], ws) == UniformSpec(outs, ws)
  {
    var outs' := outs[i := outs[i] + extra];
    var n := Min(|outs|, |ws|);
    assert outs'[0] == outs[0];
    assert forall i' :: 0 < i' < n ==> |outs'[i']| >= |outs[i']| >= |outs[0]|;
    forall k | 0 <= k < |outs[0]|
      ensures WeightedSum(outs', ws, n, k) == WeightedSum(outs, ws, n, k)
    {
      WeightedSumExtended(outs, ws, i, extra, n, k);
    }
    assert !exists i' :: 0 < i' < n && |outs'[i']| < |outs'[0]|;
    assert UniformSpec(outs', ws).value == UniformSpec(outs, ws).value;
  }

  lemma {:induction false} WeightedSumExtended(outs: seq<seq<real>>, ws: seq<real>, i: nat, extra: seq<real>, n: nat, k: nat)
    requires i < |outs| && n <= |outs| && n <= |ws| && (i < n ==> k < |outs[i]|)
    ensures WeightedSum(outs[i := outs[i] + extra], ws, n, k) == WeightedSum(outs, ws, n, k)
  {
    if n > 0 {
      WeightedSumExtended(outs, ws, i, extra, n - 1, k);
    }
  }

  /** A position where no Unit's mask is non-null keeps its initial 0. */
  lemma {:induction false} AllNullPositionIsZero(outs: seq<seq<real>>, ms: seq<seq<Option<real>>>, n: nat, j: nat)
    requires n <= |outs| && n <= |ms|
    requires forall i :: 0 <= i < n ==> j >= |ms[i]| || ms[i][j].None?
    ensures MaskedSum(outs, ms, n, j) == 0.0
  {
    if n > 0 {
      AllNullPositionIsZero(outs, ms, n - 1, j);
    }
  }

  /** The count of non-null entries only grows along a mask. */
  lemma {:induction false} CountSomePrefix(m: seq<Option<real>>, j: nat)
    requires j <= |m|
    ensures CountSome(m[..j]) <= CountSome(m)
  {
    if j < |m| {
      var p := m[..|m| - 1];
      assert p[..j] == m[..j];
      CountSomePrefix(p, j);
      assert CountSome(m) >= CountSome(p);
    } else {
      assert m[..j] == m;
    }
  }

  /** Extending a prefix by one entry counts that entry. */
  lemma CountSomeStep(m: seq<Option<real>>, j: nat)
    requires j < |m|
    ensures CountSome(m[..j + 1]) == CountSome(m[..j]) + (if m[j].Some? then 1 else 0)
  {
    assert m[..j + 1][..j] == m[..j];
  }

  /** Masks consume a Unit's outputs left to right, each one once: the index
      used at a non-null position `j` is below the count at any later
      position `j'`, and so below the mask's total count of non-null entries. */
  lemma MaskConsumesInOrder(m: seq<Option<real>>, j: nat, j': nat)
    requires j < j' <= |m| && m[j].Some?
    ensures CountSome(m[..j]) < CountSome(m[..j'])
    ensures CountSome(m[..j]) < CountSome(m)
  {
    CountSomeStep(m, j);
    CountSomePrefix(m[..j'], j + 1);
    assert m[..j'][..j + 1] == m[..j + 1];
    CountSomePrefix(m, j');
  }

  /** A scalar weight is the same as a mask that is non-null everywhere. */
  function Broadcast(ws: seq<real>, len: nat): (ms: seq<seq<Option<real>>>)
    ensures |ms| == |ws|
    ensures forall i, j :: 0 <= i < |ws| && 0 <= j < len ==> |ms[i]| == len && ms[i][j] == Some(ws[i])
  {
    seq(|ws|, i requires 0 <= i < |ws| => seq(len, _ => Some(ws[i])))
  }

  lemma {:induction false} CountSomeFull(m: seq<Option<real>>)
    requires forall j :: 0 <= j < |m| ==> m[j].Some?
    ensures CountSome(m) == |m|
  {
    if |m| > 0 {
      CountSomeFull(m[..|m| - 1]);
    }
  }

  lemma {:induction false} MaskedSumFull(outs: seq<seq<real>>, ws: seq<real>, len: nat, n: nat, k: nat)
    requires n <= |outs| && n <= |ws| && k < len
    ensures MaskedSum(outs, Broadcast(ws, len), n, k) == WeightedSum(outs, ws, n, k)
  {
    if n > 0 {
      MaskedSumFull(outs, ws, len, n - 1, k);
      var m := Broadcast(ws, len)[n - 1];
      CountSomeFull(m[..k]);
    }
  }

  /** The uniform branch agrees with the masked branch run on masks that are
      non-null at every position of the first Unit's output. */
  lemma UniformIsFullMask(outs: seq<seq<real>>, ws: seq<real>)
    requires |outs| > 0
    ensures UniformSpec(outs, ws) == MaskedSpec(outs, Broadcast(ws, |outs[0]|))
  {
    var len := |outs[0]|;
    var ms := Broadcast(ws, len);
    var n := Min(|outs|, |ws|);
    if |ws| > 0 {
      forall i | 0 <= i < n
        ensures MaskFits(outs[i], ms[i], i, |ms[0]|) <==> (i > 0 ==> |outs[i]| >= len)
      {
        CountSomeFull(ms[i]);
      }
      assert |ms[0]| == len;
      if forall i :: 0 < i < n ==> |outs[i]| >= len {
        assert forall i :: 0 <= i < n ==> MaskFits(outs[i], ms[i], i, |ms[0]|);
        forall k | 0 <= k < len
          ensures MaskedSum(outs, ms, n, k) == WeightedSum(outs, ws, n, k)
        {
          MaskedSumFull(outs, ws, len, n, k);
        }
        assert UniformSpec(outs, ws).value == MaskedSpec(outs, ms).value;
      } else {
        var i :| 0 < i < n && |outs[i]| < len;
        assert !MaskFits(outs[i], ms[i], i, |ms[0]|);
      }
    }
  }
}
