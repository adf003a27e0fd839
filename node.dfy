/** A Node: an ordered collection of Units and their weights. It hands its
    input to every Unit, combines their outputs by the weights, and resolves
    names of the Units' members, or of elements nested inside them. */
module Nodes {
  import opened Wrappers
  import opened Names
  import opened Units
  import opened Combine

  /** The dict comprehension `{ids[i]: i for i in ...}`: later entries
      overwrite earlier ones with the same key. */
  function Pointer(ids: seq<string>): (m: map<string, nat>)
    ensures m.Keys == set x | x in ids
    ensures forall x :: x in m ==> m[x] < |ids| && ids[m[x]] == x
  {
    if |ids| == 0 then map[] else Pointer(ids[..|ids| - 1])[ids[|ids| - 1] := |ids| - 1]
  }

  /** A key maps to the LAST index holding it. */
  lemma {:induction false} PointerKeepsLastIndex(ids: seq<string>, x: string, j: nat)
    requires x in Pointer(ids) && Pointer(ids)[x] < j < |ids|
    ensures ids[j] != x
  {
    var p := ids[..|ids| - 1];
    if j < |ids| - 1 && ids[|ids| - 1] != x {
      assert p[j] == ids[j];
      PointerKeepsLastIndex(p, x, j);
    }
  }

  /** With distinct ids, the pointer of the i-th id is i. */
  lemma PointerOfDistinctIds(ids: seq<string>, i: nat)
    requires forall a, b :: 0 <= a < b < |ids| ==> ids[a] != ids[b]
    requires i < |ids|
    ensures ids[i] in Pointer(ids) && Pointer(ids)[ids[i]] == i
  {
  }

  /** Two Units with the same id: the second one wins. */
  lemma PointerDuplicateExample(a: string, b: string)
    requires a != b
    ensures Pointer([a, b, a]) == map[a := 2, b := 1]
  {
  }

  /** `n` copies of `p`. */
  function Repeat(p: string, n: nat): (r: seq<string>)
    ensures |r| == n && forall k :: 0 <= k < n ==> r[k] == p
  {
    if n == 0 then [] else Repeat(p, n - 1) + [p]
  }

  /** The first Unit under masks builds the output: 0 where its mask is null,
      otherwise its next unused output times the weight. `None` when it runs
      out of outputs (an IndexError). */
  method FirstMaskedUnit(w: seq<Option<real>>, locOut: seq<real>) returns (r: Option<seq<real>>, outCount: nat)
    ensures r.Some? <==> CountSome(w) <= |locOut|
    ensures r.Some? ==> outCount == CountSome(w)
    ensures r.Some? ==> |r.value| == |w| && forall k :: 0 <= k < |w| ==> r.value[k] == Contribution(w, locOut, k)
  {
    var output: seq<real> := [];
    outCount := 0;
    for j := 0 to |w|
      invariant |output| == j
      invariant outCount == CountSome(w[..j]) <= |locOut|
      invariant forall k :: 0 <= k < j ==> output[k] == Contribution(w, locOut, k)
    {
      CountSomeStep(w, j);
      if w[j].None? {
        output := output + [0.0];
      } else {
        if outCount >= |locOut| {
          CountSomePrefix(w, j + 1);
          return None, outCount;
        }
        output := output + [locOut[outCount] * w[j].value];
        outCount := outCount + 1;
      }
    }
    assert w[..|w|] == w;
    return Some(output), outCount;
  }

  /** A later Unit under masks adds its next unused output times the weight
      wherever its mask is non-null, and skips null positions. `None` when it
      runs out of outputs or has a non-null entry past the output's end (an
      IndexError). */
  method LaterMaskedUnit(output: seq<real>, w: seq<Option<real>>, locOut: seq<real>) returns (r: Option<seq<real>>, outCount: nat)
    ensures r.Some? <==> CountSome(w) <= |locOut| && forall k :: |output| <= k < |w| ==> w[k].None?
    ensures r.Some? ==> outCount == CountSome(w)
    ensures r.Some? ==> |r.value| == |output|
    ensures r.Some? ==> forall k :: 0 <= k < |output| ==> r.value[k] == output[k] + Contribution(w, locOut, k)
  {
    var acc := output;
    outCount := 0;
    for j := 0 to |w|
      invariant |acc| == |output|
      invariant outCount == CountSome(w[..j]) <= |locOut|
      invariant forall k :: |output| <= k < j ==> w[k].None?
      invariant forall k :: 0 <= k < |output| ==>
                  acc[k] == output[k] + (if k < j then Contribution(w, locOut, k) else 0.0)
    {
      CountSomeStep(w, j);
      if w[j].Some? {
        if j >= |acc| || outCount >= |locOut| {
          CountSomePrefix(w, j + 1);
          return None, outCount;
        }
        acc := acc[j := acc[j] + locOut[outCount] * w[j].value];
        outCount := outCount + 1;
      }
    }
    assert w[..|w|] == w;
    return Some(acc), outCount;
  }

  /** `c` is a copy of `u` of the given kind: same id, outputs and members. */
  ghost predicate CopyOf(c: Unit, u: Unit, kind: Provenance)
  {
    c.id == u.id && c.outputs == u.outputs && c.members == u.members && c.nested == u.nested && c.provenance == kind
  }

  /** `c` is a copy of `u` of the given kind holding the given input and
      prefixes. */
  ghost predicate Holds(c: Unit, u: Unit, kind: Provenance, input: Option<seq<real>>, states: seq<string>, params: seq<string>)
    reads c
  {
    CopyOf(c, u, kind) && c.input == input && c.statePrefixes == states && c.parameterPrefixes == params
  }

  class Node {
    const id: string
    var area: real
    var content: seq<Unit>
    var contentPointer: map<string, nat>
    var weights: Weights
    var input: Option<seq<real>>

    /** The Units are distinct objects and the pointer map is built from
        their ids. */
    ghost predicate Valid()
      reads this
    {
      Distinct(content) && contentPointer == Pointer(Ids(content))
    }

    /** Builds the Node from copies of `units`: shallow copies when the
        parameters are shared, deep copies otherwise. In the latter case the
        parameter prefix is applied to all Units copied so far after each
        copy, so the Unit at index k receives it |units| - k times. Every Unit
        receives the state prefix once. */
    constructor (units: seq<Unit>, weights: Weights, area: real, id: string, sharedParameters: bool)
      ensures Valid()
      ensures this.id == id && this.area == area && this.weights == weights && input == None
      ensures |content| == |units| && contentPointer == Pointer(Ids(units))
      ensures forall k :: 0 <= k < |units| ==>
                fresh(content[k]) && CopyOf(content[k], units[k], if sharedParameters then SharedCopy else OwnedCopy)
      ensures forall k :: 0 <= k < |units| ==> content[k].input == old(units[k].input)
      ensures forall k :: 0 <= k < |units| ==> content[k].statePrefixes == old(units[k].statePrefixes) + [id]
      ensures forall k :: 0 <= k < |units| ==>
                content[k].parameterPrefixes ==
                old(units[k].parameterPrefixes) + (if sharedParameters then [] else Repeat(id, |units| - k))
    {
      this.id := id;
      this.area := area;
      this.weights := weights;
      this.input := None;
      this.content := [];
      this.contentPointer := map[];
      new;
      CollectUnits(units, sharedParameters);
      contentPointer := Pointer(Ids(content));
      assert Ids(content) == Ids(units);
      AddPrefixStates(id);
    }

    /** One turn of the constructor's loop: append a copy of `u`; when the
        parameters are not shared, prefix the parameters of every Unit held
        so far, the new copy included. */
    method AppendUnit(u: Unit, sharedParameters: bool)
      requires Distinct(content)
      modifies this`content, content
      ensures |content| == |old(content)| + 1 && content[..|old(content)|] == old(content)
      ensures Distinct(content)
      ensures var c := content[|content| - 1];
              && fresh(c) && CopyOf(c, u, if sharedParameters then SharedCopy else OwnedCopy)
              && c.input == old(u.input) && c.statePrefixes == old(u.statePrefixes)
              && c.parameterPrefixes == old(u.parameterPrefixes) + (if sharedParameters then [] else [id])
      ensures forall m :: 0 <= m < |old(content)| ==>
                && content[m].input == old(content[m].input)
                && content[m].statePrefixes == old(content[m].statePrefixes)
                && content[m].parameterPrefixes == old(content[m].parameterPrefixes) + (if sharedParameters then [] else [id])
    {
      var h := u.Duplicate(!sharedParameters);
      content := content + [h];
      if !sharedParameters {
        AddPrefixParameters(id);
      }
    }

    /** The copying loop of the constructor: appends a copy of each Unit and,
        when parameters are not shared, prefixes the parameters of every Unit
        appended so far. */
    method CollectUnits(units: seq<Unit>, sharedParameters: bool)
      requires content == []
      modifies this`content
      ensures |content| == |units| && Distinct(content)
      ensures forall k :: 0 <= k < |units| ==>
                fresh(content[k]) && CopyOf(content[k], units[k], if sharedParameters then SharedCopy else OwnedCopy)
      ensures forall k :: 0 <= k < |units| ==> content[k].input == old(units[k].input)
      ensures forall k :: 0 <= k < |units| ==> content[k].statePrefixes == old(units[k].statePrefixes)
      ensures forall k :: 0 <= k < |units| ==>
                content[k].parameterPrefixes ==
                old(units[k].parameterPrefixes) + (if sharedParameters then [] else Repeat(id, |units| - k))
    {
      ghost var kind := if sharedParameters then SharedCopy else OwnedCopy;
      var k := 0;
      while k < |units|
        invariant 0 <= k <= |units| && |content| == k
        invariant Distinct(content)
        invariant forall m :: 0 <= m < k ==> fresh(content[m])
        invariant forall m :: 0 <= m < k ==>
                    Holds(content[m], units[m], kind, old(units[m].input), old(units[m].statePrefixes),
                          old(units[m].parameterPrefixes) + (if sharedParameters then [] else Repeat(id, k - m)))
      {
        AppendUnit(units[k], sharedParameters);
        forall m | 0 <= m <= k
          ensures Holds(content[m], units[m], kind, old(units[m].input), old(units[m].statePrefixes),
                        old(units[m].parameterPrefixes) + (if sharedParameters then [] else Repeat(id, k + 1 - m)))
        {
          assert Repeat(id, k + 1 - m) == Repeat(id, k - m) + [id];
        }
        k := k + 1;
      }
    }

    method SetInput(x: seq<real>)
      modifies this`input
      ensures input == Some(x)
    {
      input := Some(x);
    }

    /** Gives every Unit the Node's input, then combines their outputs by the
        weights and passes the result through the internal routing. Reading
        the input before it was set fails at the first Unit. */
    method GetOutput(solve: bool) returns (r: Result<seq<real>>)
      requires Valid()
      modifies content
      ensures input.None? && |content| > 0 ==>
                r == Err(MissingInput) && forall k :: 0 <= k < |content| ==> content[k].input == old(content[k].input)
      ensures input.Some? || |content| == 0 ==>
                && (forall k :: 0 <= k < |content| ==> content[k].input == input)
                && var c := Combined(Outputs(content), weights);
                   r == if c.Ok? then Ok(InternalRouting(c.value)) else c
      ensures forall k :: 0 <= k < |content| ==>
                content[k].parameterPrefixes == old(content[k].parameterPrefixes)
                && content[k].statePrefixes == old(content[k].statePrefixes)
    {
      var k := 0;
      while k < |content|
        invariant 0 <= k <= |content|
        invariant k > 0 ==> input.Some?
        invariant forall m :: 0 <= m < k ==> content[m].input == input
        invariant forall m :: k <= m < |content| ==> content[m].input == old(content[m].input)
        invariant forall m :: 0 <= m < |content| ==>
                    content[m].parameterPrefixes == old(content[m].parameterPrefixes)
                    && content[m].statePrefixes == old(content[m].statePrefixes)
      {
        if input.None? {
          return Err(MissingInput);
        }
        content[k].SetInput(input.value);
        k := k + 1;
      }
      var c := CombineOutputs(solve);
      if c.Err? {
        return c;
      }
      return Ok(InternalRouting(c.value));
    }

    /** The combination step of `get_output`, dispatching on the shape of the
        weights. */
    method CombineOutputs(solve: bool) returns (r: Result<seq<real>>)
      ensures r == Combined(Outputs(content), weights)
    {
      match weights
      case Uniform(ws) =>
        r := CombineUniform(ws, solve);
      case Masked(ms) =>
        r := CombineMasked(ms, solve);
    }

    /** Scalar weights: the first Unit's scaled output starts the result and
        every later Unit adds its scaled fluxes position by position. */
    method CombineUniform(ws: seq<real>, solve: bool) returns (r: Result<seq<real>>)
      ensures r == UniformSpec(Outputs(content), ws)
    {
      ghost var outs := Outputs(content);
      if |ws| == 0 {
        return Err(IndexError);
      }
      var n := Min(|content|, |ws|);
      var output: seq<real> := [];
      var i := 0;
      while i < n
        invariant 0 <= i <= n
        invariant i > 0 ==> |output| == |outs[0]|
        invariant forall i' :: 0 < i' < i ==> |outs[i']| >= |outs[0]|
        invariant forall k :: 0 <= k < |output| ==> output[k] == WeightedSum(outs, ws, i, k)
      {
        var w := ws[i];
        var locOut := content[i].GetOutput(solve);
        if i == 0 {
          output := seq(|locOut|, k requires 0 <= k < |locOut| => locOut[k] * w);
        } else {
          var j := 0;
          while j < |output|
            invariant 0 <= j <= |output| == |outs[0]|
            invariant j == 0 || j <= |locOut|
            invariant forall k :: 0 <= k < j ==> output[k] == WeightedSum(outs, ws, i + 1, k)
            invariant forall k :: j <= k < |output| ==> output[k] == WeightedSum(outs, ws, i, k)
          {
            if j >= |locOut| {
              return Err(IndexError);
            }
            output := output[j := output[j] + locOut[j] * w];
            j := j + 1;
          }
        }
        i := i + 1;
      }
      if n == 0 {
        return Err(UnboundOutput);
      }
      r := Ok(output);
      assert r.value == UniformSpec(outs, ws).value;
    }

    /** Masks: each Unit's outputs are consumed left to right, one at each
        position where its mask is non-null; `outCount` counts the outputs
        used so far. The first Unit builds the result (0 where its mask is
        null), later Units add to it. */
    method CombineMasked(ms: seq<seq<Option<real>>>, solve: bool) returns (r: Result<seq<real>>)
      ensures r == MaskedSpec(Outputs(content), ms)
    {
      ghost var outs := Outputs(content);
      if |ms| == 0 {
        return Err(IndexError);
      }
      var n := Min(|content|, |ms|);
      var output: seq<real> := [];
      var i := 0;
      while i < n
        invariant 0 <= i <= n
        invariant i > 0 ==> |output| == |ms[0]|
        invariant forall i' :: 0 <= i' < i ==> MaskFits(outs[i'], ms[i'], i', |ms[0]|)
        invariant forall j :: 0 <= j < |output| ==> output[j] == MaskedSum(outs, ms, i, j)
      {
        var locOut := content[i].GetOutput(solve);
        var step: Option<seq<real>>;
        var outCount: nat;
        if i == 0 {
          step, outCount := FirstMaskedUnit(ms[0], locOut);
        } else {
          step, outCount := LaterMaskedUnit(output, ms[i], locOut);
        }
        if step.None? {
          assert !MaskFits(outs[i], ms[i], i, |ms[0]|);
          return Err(IndexError);
        }
        output := step.value;
        i := i + 1;
      }
      if n == 0 {
        return Err(UnboundOutput);
      }
      r := Ok(output);
      assert r.value == MaskedSpec(outs, ms).value;
    }

    /** Gathers how an id is resolved: the index of the Unit it selects, and
        whether it names an element inside that Unit (two separators, that is
        three segments). `find` stands for the inherited lookup from an id to
        the index of the Unit it starts with. */
    function FindAttributeFromName(id: string, find: string -> nat): (r: (nat, bool))
      ensures r.0 == find(id)
      ensures r.1 <==> Count(id, Separator) == 2
    {
      ElementPathIffTwoSeparators(id);
      (find(id), IsElementPath(id))
    }

    /** An element id is handed, whole, to the selected Unit; any other id
        names a member of the Unit itself, and a missing member is an
        AttributeError naming this Node and the member. */
    function GetInternal(id: string, attribute: string, find: string -> nat): (r: Result<Member>)
      reads this
      requires find(id) < |content|
      ensures IsElementPath(id) ==> r == content[find(id)].GetInternal(id, attribute)
      ensures !IsElementPath(id) ==>
                (r.Ok? <==> attribute in content[find(id)].members)
                && (r.Ok? ==> r.value == content[find(id)].members[attribute])
                && (r.Err? ==> r.error == NoAttribute(this.id, attribute))
    {
      var (hruNum, ele) := FindAttributeFromName(id, find);
      ElementPathIffTwoSeparators(id);
      if ele then content[hruNum].GetInternal(id, attribute)
      else if attribute in content[hruNum].members then Ok(content[hruNum].members[attribute])
      else Err(NoAttribute(this.id, attribute))
    }

    /** As `GetInternal`, but calls the member with the keyword arguments; a
        member that is not a method cannot be called. */
    function CallInternal(id: string, name: string, kwargs: Kwargs, find: string -> nat): (r: Result<Value>)
      reads this
      requires find(id) < |content|
      ensures IsElementPath(id) ==> r == content[find(id)].CallInternal(id, name, kwargs)
      ensures !IsElementPath(id) && name !in content[find(id)].members ==>
                r == Err(NoAttribute(this.id, name))
      ensures !IsElementPath(id) && name in content[find(id)].members ==>
                match content[find(id)].members[name]
                case Method(f) => r == Ok(f(kwargs))
                case Attribute(_) => r == Err(NotCallable(name))
    {
      var (hruNum, ele) := FindAttributeFromName(id, find);
      ElementPathIffTwoSeparators(id);
      if ele then content[hruNum].CallInternal(id, name, kwargs)
      else if name in content[hruNum].members then
        match content[hruNum].members[name]
        case Method(f) => Ok(f(kwargs))
        case Attribute(_) => Err(NotCallable(name))
      else Err(NoAttribute(this.id, name))
    }

    /** Applies `prefix` to the parameter names of every Unit, once each. */
    method AddPrefixParameters(prefix: string)
      requires Distinct(content)
      modifies content
      ensures forall k :: 0 <= k < |content| ==>
                content[k].parameterPrefixes == old(content[k].parameterPrefixes) + [prefix]
                && content[k].statePrefixes == old(content[k].statePrefixes)
                && content[k].input == old(content[k].input)
    {
      for k := 0 to |content|
        invariant forall m :: 0 <= m < k ==>
                    content[m].parameterPrefixes == old(content[m].parameterPrefixes) + [prefix]
        invariant forall m :: k <= m < |content| ==>
                    content[m].parameterPrefixes == old(content[m].parameterPrefixes)
        invariant forall m :: 0 <= m < |content| ==>
                    content[m].statePrefixes == old(content[m].statePrefixes)
                    && content[m].input == old(content[m].input)
      {
        content[k].AddPrefixParameters(prefix);
      }
    }

    /** Applies `prefix` to the state names of every Unit, once each. */
    method AddPrefixStates(prefix: string)
      requires Distinct(content)
      modifies content
      ensures forall k :: 0 <= k < |content| ==>
                content[k].statePrefixes == old(content[k].statePrefixes) + [prefix]
                && content[k].parameterPrefixes == old(content[k].parameterPrefixes)
                && content[k].input == old(content[k].input)
    {
      for k := 0 to |content|
        invariant forall m :: 0 <= m < k ==>
                    content[m].statePrefixes == old(content[m].statePrefixes) + [prefix]
        invariant forall m :: k <= m < |content| ==>
                    content[m].statePrefixes == old(content[m].statePrefixes)
        invariant forall m :: 0 <= m < |content| ==>
                    content[m].parameterPrefixes == old(content[m].parameterPrefixes)
                    && content[m].input == old(content[m].input)
      {
        content[k].AddPrefixStates(prefix);
      }
    }

    /** Routing from the Node's outflow to the next Node: none. */
    function ExternalRouting(flux: seq<real>): (r: seq<real>)
      ensures r == flux
    {
      flux
    }

    /** Routing from the Units to the Node's outflow: none. */
    function InternalRouting(flux: seq<real>): (r: seq<real>)
      ensures r == flux
    {
      flux
    }

    /** `copy(node)` always fails. */
    function ShallowCopy(): (r: Result<Node>)
      ensures r == Err(CopyForbidden(id))
    {
      Err(CopyForbidden(id))
    }

    /** `deepcopy(node)` always fails. */
    function DeepCopy(): (r: Result<Node>)
      ensures r == Err(CopyForbidden(id))
    {
      Err(CopyForbidden(id))
    }
  }
}
