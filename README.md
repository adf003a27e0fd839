# SuperflexPy Node: a Dafny model

SuperflexPy is a framework for building rainfall-runoff (hydrological)
models out of parts. A **Node** sits at one place in a catchment network and
owns an ordered list of **Units**, each a small hydrological model. The Node
holds a parallel list of weights and does three things:

- it hands its input fluxes to every Unit;
- it combines the Units' output fluxes into one list, using one scalar
  weight per Unit or one mask of optional weights per Unit;
- it resolves ids such as `unit_element_param` to a member of one of its
  Units, either directly or by handing the id down to the Unit.

This project models the `Node` class of `superflexpy/framework/node.py` and
proves what its loops compute.

Files:

- `wrappers.dfy`: `Option`, `Result` and the `Error` kinds. Python
  exceptions become `Err` values.
- `names.dfy`: `str.split('_')` and its inverse `join`, and the "three
  segments" test for element ids.
- `combine.dfy`: what the combination step computes, stated as pure
  functions of the Units' output lists and the weights. `UniformSpec` is
  the weighted sum at each position. `MaskedSpec` is, at each position, the
  sum of every Unit's contribution; a Unit contributes only where its mask
  is non-null, and it uses its outputs in order. The file also holds the
  lemmas about these functions.
- `units.dfy`: the Unit, seen only from outside. It has an id, the input it
  was last given, a fixed list of outputs, the prefixes applied to its
  parameter and state names (kept as a list, so repeated prefixes show up),
  and its members looked up by name. Its methods (`SetInput`,
  `AddPrefixParameters`, `AddPrefixStates`, `GetOutput`, `GetInternal`,
  `CallInternal`, `Duplicate`) stand in for the Unit interface the Node
  calls.
- `node.dfy`: the `Node` class. The constructor's copying loop
  (`CollectUnits`, whose body is `AppendUnit`), `set_input` and `get_output`
  are imperative methods. `GetOutput` is tied to the pure specification in
  `combine.dfy` through `CombineOutputs`, `CombineUniform` and
  `CombineMasked`. `CollectUnits` is specified in `node.dfy` through `Repeat`
  (the count of parameter prefixes) and `CopyOf` (what a copy keeps).
  `SetInput` is specified by its own postcondition. The content-pointer dict
  comprehension, the addressing functions, the routing hooks and the copy
  restriction are pure functions.

With masks `[[1.0, None], [None, 1.0]]` the code gives `[A[0], B[0]]`: unit
B's only non-null entry uses its first output (`Combine.MaskedExample`).

With scalar weights the code does not check that all Units produce output
lists of equal length. Each later Unit must supply at least as many fluxes
as the first, and extra fluxes are ignored
(`Combine.UniformIgnoresExtraFluxes`).

## Model

| member | source | states |
|---|---|---|
| `Nodes.Node.constructor` | superflexpy/framework/node.py:59-76 | The content is fresh copies of `units`, in the same order. Each copy is tagged as shared (shallow copy) or owned (deep copy). The weights and area are stored and no input is set yet. The pointer map is built from the ids. Every Unit gets the state prefix exactly once. Without shared parameters, the Unit at index k gets the parameter prefix n - k (n Units) times; with shared parameters it gets none. In the model, the caller's Units are not changed. |
| `Nodes.Node.CollectUnits` | superflexpy/framework/node.py:64-70 | After the copying loop: one fresh copy per Unit, in order. The Unit at index k holds its original parameter prefixes plus n - k (n Units) copies of the Node id when parameters are not shared. Input and state prefixes are unchanged. |
| `Nodes.Node.AppendUnit` | superflexpy/framework/node.py:66-70 | One turn of the loop appends a fresh copy of the Unit. Without shared parameters, every Unit held so far, the new copy included, gets one more parameter prefix. |
| `Units.Unit.Duplicate` | superflexpy/framework/node.py:66-69 | `copy`/`deepcopy` of a Unit: a fresh object with the same state, tagged `SharedCopy` or `OwnedCopy`. |
| `Nodes.Pointer` | superflexpy/framework/node.py:73-74 | The keys of the id-to-index map are exactly the Unit ids. Each key maps to an index whose Unit has that id. |
| `Nodes.PointerKeepsLastIndex` | superflexpy/framework/node.py:73-74 | When ids repeat, the map keeps the last index: no later position holds the same id. |
| `Nodes.PointerOfDistinctIds` | superflexpy/framework/node.py:73-74 | With distinct ids, the pointer of the i-th Unit's id is i. |
| `Nodes.PointerDuplicateExample` | superflexpy/framework/node.py:73-74 | For ids `[a, b, a]` the map is `{a: 2, b: 1}`. |
| `Nodes.Node.SetInput` | superflexpy/framework/node.py:80-90 | It stores the input and changes nothing else. |
| `Nodes.Node.GetOutput` | superflexpy/framework/node.py:92-143 | Reading the input before it was set fails at the first Unit, and then no Unit is changed. Otherwise every Unit's input equals the Node's stored input before any output is combined. The result is the combined output passed once through the identity internal routing. Prefixes are untouched. |
| `Nodes.Node.CombineOutputs` | superflexpy/framework/node.py:112-141 | The shape of the weights picks the branch: the uniform branch for scalar weights, the masked branch for masks. The result equals `Combined` of the Units' outputs. |
| `Nodes.Node.CombineUniform` | superflexpy/framework/node.py:113-121 | Empty weights raise IndexError and no Units leaves `output` unbound. A later Unit with fewer fluxes than the first raises IndexError. Otherwise the result has the first Unit's length, and position k holds `Σ_i o_i[k] * w_i` over the first min(#units, #weights) pairs. |
| `Nodes.Node.CombineMasked` | superflexpy/framework/node.py:122-141 | The result has the first mask's length, and position j holds the sum of every Unit's contribution at j. Empty weights raise IndexError and no Units leaves `output` unbound. A Unit that runs out of outputs, or a later Unit with a non-null entry past the first mask's length, raises IndexError. |
| `Nodes.FirstMaskedUnit` | superflexpy/framework/node.py:127-134 | The first Unit builds one entry per mask position: 0 where the mask is null, otherwise `o_0[c] * w_0[j]`, where c is the number of non-null entries before j. It fails exactly when the mask has more non-null entries than the Unit has outputs. On success the final `out_count` equals the number of non-null entries. |
| `Nodes.LaterMaskedUnit` | superflexpy/framework/node.py:135-141 | A later Unit adds `o_i[c] * w_i[j]` at each non-null position, where c is the number of earlier non-null entries, and skips null positions. It fails exactly when it runs out of outputs or has a non-null entry past the output's end. On success the final `out_count` equals the number of non-null entries. |
| `Combine.UniformExample` | superflexpy/framework/node.py:113-121 | Weights `[0.25, 0.75]` with outputs `[2.0]` and `[3.0]` give `[2.75]`. |
| `Combine.MaskedExample` | superflexpy/framework/node.py:122-141 | Masks `[[1.0, None], [None, 1.0]]` give `[a0, b0]`: position 1 receives unit B's first output, not its second. |
| `Combine.UniformIgnoresExtraFluxes` | superflexpy/framework/node.py:119-121 | When the uniform branch succeeds, appending fluxes to a later Unit's output does not change the result. |
| `Combine.AllNullPositionIsZero` | superflexpy/framework/node.py:129-141 | A position where every Unit's mask is null or absent keeps its initial 0. |
| `Combine.MaskConsumesInOrder` | superflexpy/framework/node.py:125-141 | The counter `out_count` reads each output at most once, left to right. At a non-null position j its value is smaller than at any later position, and smaller than the mask's total number of non-null entries. |
| `Combine.UniformIsFullMask` | superflexpy/framework/node.py:113-141 | The two branches agree. The uniform branch's result, error cases included, equals the masked branch's result on masks that carry the scalar weight at every position of the first Unit's output. |
| `Names.Split` | superflexpy/framework/node.py:273 | `id.split('_')` always yields at least one piece. |
| `Names.SplitLength` | superflexpy/framework/node.py:273 | The split has one more piece than the id has separators. |
| `Names.SplitPiecesFree` | superflexpy/framework/node.py:273 | No piece of the split contains the separator. |
| `Names.JoinSplit` | superflexpy/framework/node.py:273 | Joining the pieces with `'_'` gives back the id. |
| `Names.ElementPathIffTwoSeparators` | superflexpy/framework/node.py:273-280 | An id has three segments exactly when it holds two separators. |
| `Nodes.Node.FindAttributeFromName` | superflexpy/framework/node.py:256-280 | It returns the index given by the content lookup. Its element flag is true exactly when the id has two separators, that is three segments. |
| `Nodes.Node.GetInternal` | superflexpy/framework/node.py:145-175 | A three-segment id is handed, unsplit, to the selected Unit's own lookup. Any other id succeeds exactly when the Unit has the named member, which it returns. A missing member is an AttributeError naming the Node and the attribute. |
| `Nodes.Node.CallInternal` | superflexpy/framework/node.py:177-206 | A three-segment id is handed, unsplit, to the selected Unit's own call. Otherwise a method member is called with the keyword arguments and its value is returned. A missing member is an AttributeError naming the Node and the method. A member that is not a method cannot be called. |
| `Nodes.Node.AddPrefixParameters` | superflexpy/framework/node.py:210-222 | Every Unit gets the prefix on its parameters exactly once. Its state prefixes and input are unchanged. |
| `Nodes.Node.AddPrefixStates` | superflexpy/framework/node.py:224-236 | Every Unit gets the prefix on its states exactly once. Its parameter prefixes and input are unchanged. |
| `Nodes.Node.ExternalRouting` | superflexpy/framework/node.py:238-252 | It returns the flux unchanged. |
| `Nodes.Node.InternalRouting` | superflexpy/framework/node.py:282-290 | It returns the flux unchanged. |
| `Nodes.Node.ShallowCopy` | superflexpy/framework/node.py:294-296 | Copying a Node always fails, with an error naming the Node. |
| `Nodes.Node.DeepCopy` | superflexpy/framework/node.py:298-300 | Deep-copying a Node always fails, with an error naming the Node. |

## Left out

- `__repr__` (lines 302-315) only formats text.
- How a Unit solves, and what its `add_prefix_*` methods do to the names inside it. A Unit records only the prefixes it received, in order. Its output list is fixed, so the `solve` flag has no visible effect.
- `_find_content_from_name` belongs to `GenericComponent`, whose source is not part of this model. It is a parameter `find` of the addressing functions, with the precondition that it returns a valid Unit index.
- Python reflection (`getattr`) becomes a finite map of members. Errors carry the Node id and the member name, not the message text.
- numpy arithmetic and floating point: each flux is one exact `real`. An array flux would be combined element by element in the same way.
- Units.Unit.Duplicate: what `copy(h)` and `deepcopy(h)` share with the caller's Unit depends on the Unit's own copy behaviour, which is not part of this model. The model records only the tag `SharedCopy`/`OwnedCopy` on a fresh object.
- Nodes.Node.constructor: with shared parameters the source makes shallow copies, so the state prefix applied through them may also reach the caller's Units. The model does not promise this; in the model the caller's Units are unchanged.
- Nodes.Node.CallInternal: a method member is a pure function of the keyword arguments. Whatever the call changes inside the Unit is not modelled. The source also turns an AttributeError raised inside the called method into "method does not exist"; that is not modelled either.
- Nodes.Node.CombineOutputs: the branch is chosen by the tag of the `Weights` datatype, not by `isinstance(weights[0], float)`. A first weight that is a Python `int` would take the masked branch in the source and fail there. Weight lists mixing scalars and lists cannot be written in the model.
- Nodes.Node.GetOutput: input values are immutable, so the source's defensive `deepcopy` of the input has no counterpart. Unit outputs are fixed, so calling each Unit's `get_output` inside the combination loop, rather than before it, makes no visible difference.
- Nodes.Node.GetOutput requires `Valid()`: the Units are distinct objects, which always holds for a constructed Node.
