/** The Units a Node owns, reduced to what the Node can observe of them: an
    id, the input last set, a fixed list of output fluxes, the prefixes that
    were applied to their parameter and state names (in order, so repeats
    show), and the members reachable by name. How a Unit solves is not part
    of this model. */
module Units {
  import opened Wrappers

  /** Values an attribute may hold or a method may return. */
  datatype Value = Number(x: real) | Text(s: string) | Fluxes(xs: seq<real>)

  /** Keyword arguments of a call. */
  type Kwargs = map<string, Value>

  /** A named member of a Unit: a plain attribute or a method. */
  datatype Member = Attribute(value: Value) | Method(call: Kwargs -> Value)

  /** How a Unit object came to be: given by the caller, or copied by a Node
      sharing the original's parameters (shallow) or owning its own (deep). */
  datatype Provenance = Original | SharedCopy | OwnedCopy

  class Unit {
    const id: string
    /** What `get_output` returns. */
    const outputs: seq<real>
    /** Attributes and methods of the Unit itself. */
    const members: map<string, Member>
    /** What the Unit's own `get_internal` finds for a full element id. */
    const nested: map<string, map<string, Member>>
    const provenance: Provenance
    var input: Option<seq<real>>
    var parameterPrefixes: seq<string>
    var statePrefixes: seq<string>

    constructor (id: string, outputs: seq<real>, members: map<string, Member>, nested: map<string, map<string, Member>>)
      ensures this.id == id && this.outputs == outputs && this.members == members && this.nested == nested
      ensures provenance == Original && input == None
      ensures parameterPrefixes == [] && statePrefixes == []
    {
      this.id := id;
      this.outputs := outputs;
      this.members := members;
      this.nested := nested;
      this.provenance := Original;
      this.input := None;
      this.parameterPrefixes := [];
      this.statePrefixes := [];
    }

    /** A new Unit object holding the same state as `from`. */
    constructor Clone(from: Unit, kind: Provenance)
      ensures Mirrors(from) && provenance == kind
    {
      id := from.id;
      outputs := from.outputs;
      members := from.members;
      nested := from.nested;
      provenance := kind;
      input := from.input;
      parameterPrefixes := from.parameterPrefixes;
      statePrefixes := from.statePrefixes;
    }

    /** This Unit holds the same state as `u`. */
    ghost predicate Mirrors(u: Unit)
      reads this, u
    {
      && id == u.id && outputs == u.outputs && members == u.members && nested == u.nested
      && input == u.input && parameterPrefixes == u.parameterPrefixes && statePrefixes == u.statePrefixes
    }

    /** `copy(h)` when `deep` is false, `deepcopy(h)` when it is true. */
    method Duplicate(deep: bool) returns (c: Unit)
      ensures fresh(c) && c.Mirrors(this)
      ensures c.provenance == if deep then OwnedCopy else SharedCopy
    {
      c := new Unit.Clone(this, if deep then OwnedCopy else SharedCopy);
    }

    method SetInput(x: seq<real>)
      modifies this`input
      ensures input == Some(x)
    {
      input := Some(x);
    }

    /** The Unit's output fluxes; `solve` only affects how the Unit reaches them. */
    function GetOutput(solve: bool): (o: seq<real>)
    {
      outputs
    }

    method AddPrefixParameters(prefix: string)
      modifies this`parameterPrefixes
      ensures parameterPrefixes == old(parameterPrefixes) + [prefix]
    {
      parameterPrefixes := parameterPrefixes + [prefix];
    }

    method AddPrefixStates(prefix: string)
      modifies this`statePrefixes
      ensures statePrefixes == old(statePrefixes) + [prefix]
    {
      statePrefixes := statePrefixes + [prefix];
    }

    /** The Unit's own lookup of an element member by full id. */
    function GetInternal(path: string, attribute: string): (r: Result<Member>)
    {
      if path in nested && attribute in nested[path] then Ok(nested[path][attribute])
      else Err(NoAttribute(id, attribute))
    }

    /** The Unit's own call of an element method by full id. */
    function CallInternal(path: string, name: string, kwargs: Kwargs): (r: Result<Value>)
    {
      if path in nested && name in nested[path] then
        match nested[path][name]
        case Method(f) => Ok(f(kwargs))
        case Attribute(_) => Err(NotCallable(name))
      else Err(NoAttribute(id, name))
    }
  }

  /** The output lists of a sequence of Units, in order. */
  function Outputs(units: seq<Unit>): (r: seq<seq<real>>)
    ensures |r| == |units| && forall i :: 0 <= i < |units| ==> r[i] == units[i].outputs
  {
    seq(|units|, i requires 0 <= i < |units| => units[i].outputs)
  }

  /** The ids of a sequence of Units, in order. */
  function Ids(units: seq<Unit>): (r: seq<string>)
    ensures |r| == |units| && forall i :: 0 <= i < |units| ==> r[i] == units[i].id
  {
    seq(|units|, i requires 0 <= i < |units| => units[i].id)
  }

  /** No Unit object occurs twice. */
  ghost predicate Distinct(units: seq<Unit>)
  {
    forall i, j :: 0 <= i < j < |units| ==> units[i] != units[j]
  }
}
