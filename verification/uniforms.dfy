/** Uniform reflection: choosing a setter for each active uniform, and applying uniform values. */
module Uniforms {
  import opened Results
  import opened Tables
  import opened GlTypes

  /** The WebGL entry point a setter is bound to. */
  datatype SetterFn =
    | Uniform1f
    | UniformFv(n: Rank)
    | Uniform1i
    | UniformIv(n: Rank)
    | UniformMatrixFv(n: Rank)

  /** A setter: the entry point with the uniform's location bound and, for matrices, `transpose` bound. */
  datatype UniformSetter = UniformSetter(fn: SetterFn, location: int, transpose: Option<bool>)

  /** Scalars one call of the entry point consumes per element. */
  function SetterArity(f: SetterFn): nat {
    match f
    case Uniform1f => 1
    case UniformFv(n) => n
    case Uniform1i => 1
    case UniformIv(n) => n
    case UniformMatrixFv(n) => n * n
  }

  predicate IsFloatSetter(f: SetterFn) {
    f.Uniform1f? || f.UniformFv? || f.UniformMatrixFv?
  }

  /**
   * The dispatch of `_getUniformSetter` for a recognised tag. Its contract ties it to the
   * reflection table: the entry point takes as many scalars as the type has components, it is a
   * float entry point exactly when the type's scalars are floats, and only matrices bind a
   * (false) transpose flag. These three facts determine the entry point uniquely.
   */
  function SetterFor(t: GlType, location: int): (r: UniformSetter)
    ensures r.location == location
    ensures SetterArity(r.fn) == InfoForType(t, None).components
    ensures IsFloatSetter(r.fn) <==> InfoForType(t, None).dataType == Some(Float)
    ensures r.fn.UniformMatrixFv? <==> t.FloatMat?
    ensures r.transpose == (if t.FloatMat? then Some(false) else None)
  {
    match t
    case Float => UniformSetter(Uniform1f, location, None)
    case FloatVec(n) => UniformSetter(UniformFv(n), location, None)
    case Sampler2D | SamplerCube | Int | Bool | Short | Byte | UnsignedByte | UnsignedShort | UnsignedInt =>
      UniformSetter(Uniform1i, location, None)
    case IntVec(n) => UniformSetter(UniformIv(n), location, None)
    case BoolVec(n) => UniformSetter(UniformIv(n), location, None)
    case FloatMat(n) => UniformSetter(UniformMatrixFv(n), location, Some(false))
  }

  /** `_getUniformSetter` on a reported value: a value outside the table throws. */
  function SetterForCode(code: int, location: int): (r: Result<UniformSetter>)
    ensures r.Err? <==> FromCode(code).None?
    ensures r.Err? ==> r.error == UnknownUniformType(code)
    ensures r.Ok? ==> r.value == SetterFor(FromCode(code).value, location)
  {
    match FromCode(code)
    case None => Err(UnknownUniformType(code))
    case Some(t) => Ok(SetterFor(t, location))
  }

  /** The record stored under each uniform's name. */
  datatype UniformEntry = UniformEntry(
    index: nat,
    name: string,
    location: int,
    typeInfo: Option<TypeInfo>,
    setter: UniformSetter)

  predicate AllKnown(vars: seq<ActiveVariable>, n: nat)
    requires n <= |vars|
  {
    forall i :: 0 <= i < n ==> FromCode(vars[i].typeCode).Some?
  }

  /** Uniform j, among the first n, is the first whose type is outside the table. */
  predicate FirstUnknown(vars: seq<ActiveVariable>, j: int, n: nat)
    requires n <= |vars|
  {
    0 <= j < n && FromCode(vars[j].typeCode).None? && AllKnown(vars, j)
  }

  predicate DistinctNames(vars: seq<ActiveVariable>) {
    forall i, j :: 0 <= i < j < |vars| ==> vars[i].name != vars[j].name
  }

  function NamesOf(vars: seq<ActiveVariable>, n: nat): set<string>
    requires n <= |vars|
  {
    set i | 0 <= i < n :: vars[i].name
  }

  /** What reflection stores for the active uniform at position i. */
  function EntryFor(vars: seq<ActiveVariable>, i: nat): UniformEntry
    requires i < |vars| && FromCode(vars[i].typeCode).Some?
  {
    var v := vars[i];
    UniformEntry(i, v.name, v.location, InfoForCode(v.typeCode, Some(v.size)),
                 SetterFor(FromCode(v.typeCode).value, v.location))
  }

  /**
   * `t` is the table reflection builds from the first n active uniforms: its keys are their
   * names, and each name maps to the entry of the last uniform carrying it.
   */
  ghost predicate Reflects(t: Table<UniformEntry>, vars: seq<ActiveVariable>, n: nat)
    requires n <= |vars| && AllKnown(vars, n)
  {
    && Keys(t) == NamesOf(vars, n)
    && forall i :: 0 <= i < n ==>
         Get(t, vars[i].name).Some?
         && var e := Get(t, vars[i].name).value;
            i <= e.index < n && vars[e.index].name == vars[i].name && e == EntryFor(vars, e.index)
  }

  /** Storing the entry of uniform n-1 extends a reflection of the first n-1 uniforms to n. */
  lemma ReflectsStep(prev: Table<UniformEntry>, vars: seq<ActiveVariable>, n: nat)
    requires 0 < n <= |vars| && AllKnown(vars, n)
    requires Reflects(prev, vars, n - 1)
    ensures Reflects(Put(prev, vars[n - 1].name, EntryFor(vars, n - 1)), vars, n)
  {
    var t := Put(prev, vars[n - 1].name, EntryFor(vars, n - 1));
    NamesStep(vars, n);
    forall i | 0 <= i < n
      ensures Get(t, vars[i].name).Some?
      ensures var e := Get(t, vars[i].name).value;
              i <= e.index < n && vars[e.index].name == vars[i].name && e == EntryFor(vars, e.index)
    {
      EntryAfterPut(prev, vars, n, i);
    }
  }

  /** After storing uniform n-1, every uniform's name finds the entry of its last holder. */
  lemma EntryAfterPut(prev: Table<UniformEntry>, vars: seq<ActiveVariable>, n: nat, i: nat)
    requires 0 < n <= |vars| && AllKnown(vars, n) && i < n
    requires Reflects(prev, vars, n - 1)
    ensures var t := Put(prev, vars[n - 1].name, EntryFor(vars, n - 1));
            && Get(t, vars[i].name).Some?
            && var e := Get(t, vars[i].name).value;
               i <= e.index < n && vars[e.index].name == vars[i].name && e == EntryFor(vars, e.index)
  {
    var v := vars[n - 1];
    var t := Put(prev, v.name, EntryFor(vars, n - 1));
    if vars[i].name == v.name {
      assert Get(t, vars[i].name) == Some(EntryFor(vars, n - 1));
      assert EntryFor(vars, n - 1).index == n - 1;
    } else {
      assert i < n - 1;
      PutKeepsOthers(prev, v.name, EntryFor(vars, n - 1), vars[i].name);
      ReflectsAt(prev, vars, n - 1, i);
    }
  }

  /** One uniform's part of a reflection. */
  lemma ReflectsAt(t: Table<UniformEntry>, vars: seq<ActiveVariable>, n: nat, i: nat)
    requires n <= |vars| && AllKnown(vars, n) && i < n
    requires Reflects(t, vars, n)
    ensures Get(t, vars[i].name).Some?
    ensures var e := Get(t, vars[i].name).value;
            i <= e.index < n && vars[e.index].name == vars[i].name && e == EntryFor(vars, e.index)
  {
  }

  /** The names of the first n uniforms are those of the first n-1 and the name of uniform n-1. */
  lemma NamesStep(vars: seq<ActiveVariable>, n: nat)
    requires 0 < n <= |vars|
    ensures NamesOf(vars, n) == NamesOf(vars, n - 1) + {vars[n - 1].name}
  {
  }

  /**
   * `getUniformsFromProgram` over the first n active uniforms: a table keyed by name, or the
   * error of the first uniform whose type has no setter.
   */
  function ReflectUniforms(vars: seq<ActiveVariable>, n: nat): (r: Result<Table<UniformEntry>>)
    requires n <= |vars|
    decreases n
    ensures r.Ok? <==> AllKnown(vars, n)
    ensures r.Err? ==> exists j :: FirstUnknown(vars, j, n) && r.error == UnknownUniformType(vars[j].typeCode)
    ensures r.Ok? ==> Reflects(r.value, vars, n)
    ensures r.Ok? && DistinctNames(vars) ==> |r.value| == n
  {
    if n == 0 then Ok([])
    else
      var prev := ReflectUniforms(vars, n - 1);
      if prev.Err? then
        var j :| FirstUnknown(vars, j, n - 1) && prev.error == UnknownUniformType(vars[j].typeCode);
        assert FirstUnknown(vars, j, n);
        prev
      else
        var v := vars[n - 1];
        match SetterForCode(v.typeCode, v.location)
        case Err(e) =>
          assert FirstUnknown(vars, n - 1, n);
          Err(e)
        case Ok(setter) =>
          ReflectOkStep(prev.value, vars, n);
          var t := Put(prev.value, v.name, EntryFor(vars, n - 1));
          Ok(t)
  }

  /** Storing the entry of a known uniform n-1 into a reflection of the first n-1 uniforms. */
  lemma ReflectOkStep(prev: Table<UniformEntry>, vars: seq<ActiveVariable>, n: nat)
    requires 0 < n <= |vars| && AllKnown(vars, n - 1) && FromCode(vars[n - 1].typeCode).Some?
    requires Reflects(prev, vars, n - 1)
    requires DistinctNames(vars) ==> |prev| == n - 1
    ensures AllKnown(vars, n)
    ensures Reflects(Put(prev, vars[n - 1].name, EntryFor(vars, n - 1)), vars, n)
    ensures DistinctNames(vars) ==> |Put(prev, vars[n - 1].name, EntryFor(vars, n - 1))| == n
  {
    var v := vars[n - 1];
    assert AllKnown(vars, n);
    ReflectsStep(prev, vars, n);
    if DistinctNames(vars) {
      assert v.name !in NamesOf(vars, n - 1);
    }
  }

  /**
   * `setUniforms`: each named value is handed to that uniform's setter, in the order of the
   * values; a name the program does not have throws.
   */
  function SetUniforms<V>(uniforms: Table<UniformEntry>, values: seq<(string, V)>): (r: Result<seq<(UniformSetter, V)>>)
    ensures r.Ok? <==> forall i :: 0 <= i < |values| ==> values[i].0 in Keys(uniforms)
    ensures r.Err? ==> exists i :: 0 <= i < |values| && values[i].0 !in Keys(uniforms)
                                   && r.error == UnknownUniformName(values[i].0)
    ensures r.Ok? ==> |r.value| == |values|
    ensures r.Ok? ==> forall i :: 0 <= i < |values| ==>
              r.value[i] == (Get(uniforms, values[i].0).value.setter, values[i].1)
  {
    if |values| == 0 then Ok([])
    else
      var head := Get(uniforms, values[0].0);
      if head.None? then Err(UnknownUniformName(values[0].0))
      else
        var rest := SetUniforms(uniforms, values[1..]);
        if rest.Err? then
          var i :| 0 <= i < |values[1..]| && values[1..][i].0 !in Keys(uniforms)
                   && rest.error == UnknownUniformName(values[1..][i].0);
          assert values[i + 1] == values[1..][i];
          rest
        else
          assert forall i :: 1 <= i < |values| ==> values[i] == values[1..][i - 1];
          Ok([(head.value.setter, values[0].1)] + rest.value)
  }

  /** With distinct names, reflection yields exactly one entry per active uniform, at its own index. */
  lemma OneEntryPerUniform(vars: seq<ActiveVariable>)
    requires DistinctNames(vars)
    requires AllKnown(vars, |vars|)
    ensures ReflectUniforms(vars, |vars|).Ok?
    ensures |ReflectUniforms(vars, |vars|).value| == |vars|
    ensures forall i :: 0 <= i < |vars| ==>
              Get(ReflectUniforms(vars, |vars|).value, vars[i].name) == Some(EntryFor(vars, i))
  {
    var t := ReflectUniforms(vars, |vars|).value;
    assert Reflects(t, vars, |vars|);
    forall i | 0 <= i < |vars|
      ensures Get(t, vars[i].name) == Some(EntryFor(vars, i))
    {
      var e := Get(t, vars[i].name).value;
      SameNameSameIndex(vars, e.index, i);
    }
  }

  /** With distinct names, two uniforms with the same name are the same uniform. */
  lemma SameNameSameIndex(vars: seq<ActiveVariable>, a: nat, b: nat)
    requires DistinctNames(vars) && a < |vars| && b < |vars|
    requires vars[a].name == vars[b].name
    ensures a == b
  {
  }
}
