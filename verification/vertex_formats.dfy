/**
 * Vertex layouts: the packed layout built from a vertex array's shorthand format, the layout
 * reflected from a linked program, and the attribute binding that pairs the two by name.
 */
module VertexFormats {
  import opened Results
  import opened Tables
  import opened GlTypes
  import opened Gl

  /** One attribute of the shorthand format that accompanies a vertex array: `{name, type, size}`. */
  datatype FormatEntry = FormatEntry(name: string, typeCode: int, size: Option<nat>)

  /**
   * One attribute of a layout. `location` is the byte offset inside a vertex for a buffer's
   * layout, and the attribute location the context assigned for a program's layout.
   */
  datatype AttribInfo = AttribInfo(index: nat, name: string, location: int, typeInfo: TypeInfo)

  datatype VertexFormat = VertexFormat(stride: nat, attribs: Table<AttribInfo>)

  /** Where an attribute's `location` comes from. */
  datatype Placement = Packed | Bound(locations: seq<int>)

  predicate FitsPlacement(fmt: seq<FormatEntry>, p: Placement) {
    p.Bound? ==> |p.locations| == |fmt|
  }

  /**
   * Bytes an entry adds to the stride. A null byte size (samplers) adds nothing, as
   * `stride += null` does in JavaScript.
   */
  function EntryBytes(e: FormatEntry): nat {
    match InfoForCode(e.typeCode, e.size)
    case None => 0
    case Some(info) => info.byteSize.GetOr(0)
  }

  /** The sum of the byte sizes of the first i entries. */
  function Offset(fmt: seq<FormatEntry>, i: nat): nat
    requires i <= |fmt|
  {
    if i == 0 then 0 else Offset(fmt, i - 1) + EntryBytes(fmt[i - 1])
  }

  lemma {:induction false} OffsetMonotone(fmt: seq<FormatEntry>, i: nat, j: nat)
    requires i <= j <= |fmt|
    ensures Offset(fmt, i) <= Offset(fmt, j)
  {
    if i < j {
      OffsetMonotone(fmt, i, j - 1);
    }
  }

  predicate AllKnown(fmt: seq<FormatEntry>, n: nat)
    requires n <= |fmt|
  {
    forall i :: 0 <= i < n ==> FromCode(fmt[i].typeCode).Some?
  }

  /** Entry j, among the first n, is the first whose type is outside the reflection table. */
  predicate FirstUnknown(fmt: seq<FormatEntry>, j: int, n: nat)
    requires n <= |fmt|
  {
    0 <= j < n && FromCode(fmt[j].typeCode).None? && AllKnown(fmt, j)
  }

  function NamesOf(fmt: seq<FormatEntry>, n: nat): set<string>
    requires n <= |fmt|
  {
    set i | 0 <= i < n :: fmt[i].name
  }

  /** The attribute record stored for entry i. */
  function AttribFor(fmt: seq<FormatEntry>, p: Placement, i: nat): AttribInfo
    requires i < |fmt| && FitsPlacement(fmt, p) && FromCode(fmt[i].typeCode).Some?
  {
    var location := if p.Packed? then Offset(fmt, i) else p.locations[i];
    AttribInfo(i, fmt[i].name, location, InfoForType(FromCode(fmt[i].typeCode).value, fmt[i].size))
  }

  /** The index of the last of the first n entries that carries entry i's name. */
  function LastIndex(fmt: seq<FormatEntry>, i: nat, n: nat): (r: nat)
    requires i < n <= |fmt|
    ensures i <= r < n && fmt[r].name == fmt[i].name
    ensures forall j :: r < j < n ==> fmt[j].name != fmt[i].name
  {
    if fmt[n - 1].name == fmt[i].name then n - 1 else LastIndex(fmt, i, n - 1)
  }

  /** Entry i's name maps to the record of the last of the first n entries carrying that name. */
  ghost predicate MapsEntry(t: Table<AttribInfo>, fmt: seq<FormatEntry>, p: Placement, n: nat, i: nat)
    requires i < n <= |fmt| && FitsPlacement(fmt, p) && AllKnown(fmt, n)
  {
    Get(t, fmt[i].name) == Some(AttribFor(fmt, p, LastIndex(fmt, i, n)))
  }

  /**
   * `t` holds the attributes of the first n entries: its keys are their names, and each name
   * maps to the record of the last entry carrying it (a later entry overwrites an earlier one).
   */
  ghost predicate Describes(t: Table<AttribInfo>, fmt: seq<FormatEntry>, p: Placement, n: nat)
    requires n <= |fmt| && FitsPlacement(fmt, p) && AllKnown(fmt, n)
  {
    && Keys(t) == NamesOf(fmt, n)
    && forall i :: 0 <= i < n ==> MapsEntry(t, fmt, p, n, i)
  }

  lemma MapsEntryStep(prev: Table<AttribInfo>, fmt: seq<FormatEntry>, p: Placement, n: nat, i: nat)
    requires i < n <= |fmt| && FitsPlacement(fmt, p) && AllKnown(fmt, n)
    requires i < n - 1 ==> MapsEntry(prev, fmt, p, n - 1, i)
    ensures MapsEntry(Put(prev, fmt[n - 1].name, AttribFor(fmt, p, n - 1)), fmt, p, n, i)
  {
    var e := fmt[n - 1];
    if fmt[i].name != e.name {
      PutKeepsOthers(prev, e.name, AttribFor(fmt, p, n - 1), fmt[i].name);
    }
  }

  lemma DescribesStep(prev: Table<AttribInfo>, fmt: seq<FormatEntry>, p: Placement, n: nat)
    requires 0 < n <= |fmt| && FitsPlacement(fmt, p) && AllKnown(fmt, n)
    requires Describes(prev, fmt, p, n - 1)
    ensures Describes(Put(prev, fmt[n - 1].name, AttribFor(fmt, p, n - 1)), fmt, p, n)
  {
    var t := Put(prev, fmt[n - 1].name, AttribFor(fmt, p, n - 1));
    assert NamesOf(fmt, n) == NamesOf(fmt, n - 1) + {fmt[n - 1].name};
    forall i | 0 <= i < n
      ensures MapsEntry(t, fmt, p, n, i)
    {
      MapsEntryStep(prev, fmt, p, n, i);
    }
  }

  /** With the running stride equal to the sum so far, the record built in the loop is entry n-1's. */
  lemma AttribAtStride(fmt: seq<FormatEntry>, p: Placement, n: nat, stride: nat, info: TypeInfo)
    requires 0 < n <= |fmt| && FitsPlacement(fmt, p) && stride == Offset(fmt, n - 1)
    requires InfoForCode(fmt[n - 1].typeCode, fmt[n - 1].size) == Some(info)
    ensures AttribFor(fmt, p, n - 1)
         == AttribInfo(n - 1, fmt[n - 1].name, if p.Packed? then stride else p.locations[n - 1], info)
  {
  }

  /**
   * One iteration of the layout loop: entry n-1 is added at the running stride (or at its bound
   * location), or its unknown type throws.
   */
  function BuildStep(fmt: seq<FormatEntry>, p: Placement, n: nat, prev: VertexFormat): (r: Result<VertexFormat>)
    requires 0 < n <= |fmt| && FitsPlacement(fmt, p) && AllKnown(fmt, n - 1)
    requires prev.stride == Offset(fmt, n - 1) && Describes(prev.attribs, fmt, p, n - 1)
    ensures r.Ok? <==> AllKnown(fmt, n)
    ensures r.Err? ==> FirstUnknown(fmt, n - 1, n) && r.error == UnknownAttributeType(fmt[n - 1].typeCode)
    ensures r.Ok? ==> r.value.stride == Offset(fmt, n) && Describes(r.value.attribs, fmt, p, n)
  {
    var e := fmt[n - 1];
    match InfoForCode(e.typeCode, e.size)
    case None => Err(UnknownAttributeType(e.typeCode))
    case Some(info) =>
      var location := if p.Packed? then prev.stride else p.locations[n - 1];
      AttribAtStride(fmt, p, n, prev.stride, info);
      DescribesStep(prev.attribs, fmt, p, n);
      Ok(VertexFormat(prev.stride + info.byteSize.GetOr(0), Put(prev.attribs, e.name, AttribInfo(n - 1, e.name, location, info))))
  }

  /**
   * The loop shared by `_convertVertexFormat` and `getVertexFormatFromProgram`, over the first n
   * entries: the stride accumulates every entry's byte size, and an entry whose type is outside
   * the table throws when its byte size is read.
   */
  function BuildFormat(fmt: seq<FormatEntry>, p: Placement, n: nat): (r: Result<VertexFormat>)
    requires n <= |fmt| && FitsPlacement(fmt, p)
    decreases n
    ensures r.Ok? <==> AllKnown(fmt, n)
    ensures r.Err? ==> exists j :: FirstUnknown(fmt, j, n) && r.error == UnknownAttributeType(fmt[j].typeCode)
    ensures r.Ok? ==> r.value.stride == Offset(fmt, n)
    ensures r.Ok? ==> Describes(r.value.attribs, fmt, p, n)
  {
    if n == 0 then Ok(VertexFormat(0, []))
    else
      var prev := BuildFormat(fmt, p, n - 1);
      if prev.Err? then
        var j :| FirstUnknown(fmt, j, n - 1) && prev.error == UnknownAttributeType(fmt[j].typeCode);
        assert FirstUnknown(fmt, j, n);
        prev
      else
        BuildStep(fmt, p, n, prev.value)
  }

  /** `_convertVertexFormat`: offsets are the running stride. */
  function ConvertVertexFormat(fmt: seq<FormatEntry>): (r: Result<VertexFormat>)
    ensures r.Ok? <==> AllKnown(fmt, |fmt|)
    ensures r.Ok? ==> r.value.stride == Offset(fmt, |fmt|)
    ensures r.Ok? ==> Describes(r.value.attribs, fmt, Packed, |fmt|)
  {
    BuildFormat(fmt, Packed, |fmt|)
  }

  /** The attribute recorded for entry i of a packed layout starts at the sum of the sizes before it. */
  lemma PackedAttribFits(fmt: seq<FormatEntry>, a: AttribInfo, i: nat)
    requires AllKnown(fmt, |fmt|) && i < |fmt|
    requires a == AttribFor(fmt, Packed, LastIndex(fmt, i, |fmt|))
    ensures a.location == Offset(fmt, a.index) && a.location + a.typeInfo.byteSize.GetOr(0) <= Offset(fmt, |fmt|)
  {
    assert EntryBytes(fmt[a.index]) == a.typeInfo.byteSize.GetOr(0);
    OffsetMonotone(fmt, a.index + 1, |fmt|);
  }

  /**
   * Every attribute of a converted layout starts at the sum of the byte sizes before it and
   * ends within the stride.
   */
  lemma PackedAttribFitsStride(fmt: seq<FormatEntry>, i: nat)
    requires ConvertVertexFormat(fmt).Ok? && i < |fmt|
    ensures var f := ConvertVertexFormat(fmt).value;
            && Get(f.attribs, fmt[i].name).Some?
            && var a := Get(f.attribs, fmt[i].name).value;
               && a.index < |fmt| && fmt[a.index].name == fmt[i].name
               && a.location == Offset(fmt, a.index)
               && a.location + a.typeInfo.byteSize.GetOr(0) <= f.stride
  {
    var f := ConvertVertexFormat(fmt).value;
    assert MapsEntry(f.attribs, fmt, Packed, |fmt|, i);
    PackedAttribFits(fmt, AttribFor(fmt, Packed, LastIndex(fmt, i, |fmt|)), i);
  }

  /** The shorthand entry an active attribute is reflected as. */
  function ActiveEntry(v: ActiveVariable): FormatEntry {
    FormatEntry(v.name, v.typeCode, Some(v.size))
  }

  /** The shorthand entries the active attributes are reflected as, in reporting order. */
  function AttributeEntries(vars: seq<ActiveVariable>): (fmt: seq<FormatEntry>)
    ensures |fmt| == |vars|
    ensures forall i :: 0 <= i < |vars| ==> fmt[i] == ActiveEntry(vars[i])
  {
    seq(|vars|, i requires 0 <= i < |vars| => ActiveEntry(vars[i]))
  }

  /** The attribute locations the context assigned, in reporting order. */
  function AttributeLocations(vars: seq<ActiveVariable>): (p: Placement)
    ensures p.Bound? && |p.locations| == |vars|
    ensures forall i :: 0 <= i < |vars| ==> p.locations[i] == vars[i].location
  {
    Bound(seq(|vars|, i requires 0 <= i < |vars| => vars[i].location))
  }

  /** `getVertexFormatFromProgram`: each attribute keeps the location the context assigned it. */
  function VertexFormatFromProgram(vars: seq<ActiveVariable>): (r: Result<VertexFormat>)
    ensures var fmt := AttributeEntries(vars);
            && (r.Ok? <==> AllKnown(fmt, |fmt|))
            && (r.Err? ==> exists j :: FirstUnknown(fmt, j, |fmt|) && r.error == UnknownAttributeType(vars[j].typeCode))
            && (r.Ok? ==> r.value.stride == Offset(fmt, |fmt|))
            && (r.Ok? ==> Describes(r.value.attribs, fmt, AttributeLocations(vars), |fmt|))
  {
    BuildFormat(AttributeEntries(vars), AttributeLocations(vars), |vars|)
  }

  /**
   * The reflected layout gives each attribute name the location the context assigned to it (the
   * last attribute reported under that name wins).
   */
  lemma ReflectedLocation(vars: seq<ActiveVariable>, i: nat)
    requires VertexFormatFromProgram(vars).Ok? && i < |vars|
    ensures var f := VertexFormatFromProgram(vars).value;
            && Get(f.attribs, vars[i].name).Some?
            && var a := Get(f.attribs, vars[i].name).value;
               && i <= a.index < |vars| && vars[a.index].name == vars[i].name
               && a.location == vars[a.index].location
  {
    var f := VertexFormatFromProgram(vars).value;
    var fmt := AttributeEntries(vars);
    assert fmt[i].name == vars[i].name;
    assert MapsEntry(f.attribs, fmt, AttributeLocations(vars), |fmt|, i);
  }

  /** A vertex buffer and the layout of the data uploaded into it. */
  datatype VertexBuffer = VertexBuffer(format: VertexFormat, buffer: BufferId)

  /** An attribute present in both the buffer's layout and the program's layout. */
  datatype Binding = Binding(name: string, buffer: AttribInfo, program: AttribInfo)

  function BindingNames(m: seq<Binding>): set<string> {
    set k | 0 <= k < |m| :: m[k].name
  }

  /**
   * `idx` lists, in increasing order, exactly the positions of the buffer entries whose names the
   * program also declares.
   */
  ghost predicate SharedPositions(bufferAttribs: Table<AttribInfo>, programAttribs: Table<AttribInfo>, idx: seq<nat>) {
    && (forall k :: 0 <= k < |idx| ==> idx[k] < |bufferAttribs| && bufferAttribs[idx[k]].0 in Keys(programAttribs))
    && (forall k, l :: 0 <= k < l < |idx| ==> idx[k] < idx[l])
    && (forall i :: 0 <= i < |bufferAttribs| && bufferAttribs[i].0 in Keys(programAttribs) ==> i in idx)
  }

  /**
   * The iterations of `for (var attribName in bufferVertexFormat.attribs)` that bind: the
   * positions of the buffer's entries that the program shares, in the buffer's order.
   */
  function SharedIndices(bufferAttribs: Table<AttribInfo>, programAttribs: Table<AttribInfo>): (idx: seq<nat>)
    ensures SharedPositions(bufferAttribs, programAttribs, idx)
  {
    if |bufferAttribs| == 0 then []
    else
      var rest := SharedIndices(bufferAttribs[1..], programAttribs);
      var shifted := ShiftUp(rest);
      if bufferAttribs[0].0 in Keys(programAttribs) then
        ShiftedPositions(bufferAttribs, programAttribs, rest, shifted);
        TakePositions(bufferAttribs, programAttribs, shifted);
        [0] + shifted
      else
        SkipPositions(bufferAttribs, programAttribs, rest, shifted);
        shifted
  }

  /** Every position moved one place on. */
  function ShiftUp(s: seq<nat>): (r: seq<nat>)
    ensures |r| == |s| && forall k :: 0 <= k < |s| ==> r[k] == s[k] + 1
  {
    if s == [] then [] else [s[0] + 1] + ShiftUp(s[1..])
  }

  /** With the head not shared, the shared positions are the tail's moved on by one. */
  lemma SkipPositions(bufferAttribs: Table<AttribInfo>, programAttribs: Table<AttribInfo>, rest: seq<nat>, shifted: seq<nat>)
    requires |bufferAttribs| > 0 && bufferAttribs[0].0 !in Keys(programAttribs)
    requires SharedPositions(bufferAttribs[1..], programAttribs, rest)
    requires |shifted| == |rest| && forall k :: 0 <= k < |rest| ==> shifted[k] == rest[k] + 1
    ensures SharedPositions(bufferAttribs, programAttribs, shifted)
  {
    ShiftedPositions(bufferAttribs, programAttribs, rest, shifted);
  }

  /** With the head shared, the shared positions are 0 followed by the tail's moved on by one. */
  lemma TakePositions(bufferAttribs: Table<AttribInfo>, programAttribs: Table<AttribInfo>, shifted: seq<nat>)
    requires |bufferAttribs| > 0 && bufferAttribs[0].0 in Keys(programAttribs)
    requires forall k :: 0 <= k < |shifted| ==>
               0 < shifted[k] < |bufferAttribs| && bufferAttribs[shifted[k]].0 in Keys(programAttribs)
    requires forall k, l :: 0 <= k < l < |shifted| ==> shifted[k] < shifted[l]
    requires forall i :: 1 <= i < |bufferAttribs| && bufferAttribs[i].0 in Keys(programAttribs) ==> i in shifted
    ensures SharedPositions(bufferAttribs, programAttribs, [0] + shifted)
  {
    PrependZero(shifted);
    var r := [0] + shifted;
    forall k | 0 <= k < |r| ensures r[k] < |bufferAttribs| && bufferAttribs[r[k]].0 in Keys(programAttribs) {
      if k > 0 { assert r[k] == shifted[k - 1]; }
    }
  }

  /** Putting 0 in front of increasing positive positions keeps them increasing and keeps every one. */
  lemma PrependZero(s: seq<nat>)
    requires forall k :: 0 <= k < |s| ==> 0 < s[k]
    requires forall k, l :: 0 <= k < l < |s| ==> s[k] < s[l]
    ensures forall k, l :: 0 <= k < l < |[0] + s| ==> ([0] + s)[k] < ([0] + s)[l]
    ensures forall i :: i in s || i == 0 ==> i in [0] + s
  {
    var r := [0] + s;
    forall k, l | 0 <= k < l < |r| ensures r[k] < r[l] {
      assert r[l] == s[l - 1];
      if k > 0 { assert r[k] == s[k - 1]; }
    }
  }

  /** The tail's shared positions, moved on by one, are increasing shared positions of the table, and cover all but 0. */
  lemma ShiftedPositions(bufferAttribs: Table<AttribInfo>, programAttribs: Table<AttribInfo>, rest: seq<nat>, shifted: seq<nat>)
    requires |bufferAttribs| > 0
    requires SharedPositions(bufferAttribs[1..], programAttribs, rest)
    requires |shifted| == |rest| && forall k :: 0 <= k < |rest| ==> shifted[k] == rest[k] + 1
    ensures forall k :: 0 <= k < |shifted| ==>
              0 < shifted[k] < |bufferAttribs| && bufferAttribs[shifted[k]].0 in Keys(programAttribs)
    ensures forall k, l :: 0 <= k < l < |shifted| ==> shifted[k] < shifted[l]
    ensures forall i :: 1 <= i < |bufferAttribs| && bufferAttribs[i].0 in Keys(programAttribs) ==> i in shifted
  {
    var tail := bufferAttribs[1..];
    forall k | 0 <= k < |shifted|
      ensures 0 < shifted[k] < |bufferAttribs| && bufferAttribs[shifted[k]].0 in Keys(programAttribs)
    {
      assert bufferAttribs[shifted[k]] == tail[rest[k]];
    }
    forall i | 1 <= i < |bufferAttribs| && bufferAttribs[i].0 in Keys(programAttribs)
      ensures i in shifted
    {
      assert tail[i - 1] == bufferAttribs[i];
      var k :| 0 <= k < |rest| && rest[k] == i - 1;
      assert shifted[k] == i;
    }
  }

  /**
   * The buffer's attributes, in the buffer's order, that the program also has; every other
   * attribute of either side is skipped.
   */
  function Matched(bufferAttribs: Table<AttribInfo>, programAttribs: Table<AttribInfo>): (m: seq<Binding>)
    ensures |m| <= |bufferAttribs|
    ensures BindingNames(m) == Keys(bufferAttribs) * Keys(programAttribs)
    ensures forall k :: 0 <= k < |m| ==>
              (m[k].name, m[k].buffer) in bufferAttribs && Get(programAttribs, m[k].name) == Some(m[k].program)
  {
    if |bufferAttribs| == 0 then []
    else
      var key := bufferAttribs[0].0;
      var rest := Matched(bufferAttribs[1..], programAttribs);
      KeysOfTail(bufferAttribs);
      assert forall k :: 0 <= k < |rest| ==> (rest[k].name, rest[k].buffer) in bufferAttribs;
      match Get(programAttribs, key)
      case None => rest
      case Some(pa) =>
        var m := [Binding(key, bufferAttribs[0].1, pa)] + rest;
        BindingNamesCons(m[0], rest);
        m
  }

  /**
   * The loop binds in the buffer's order: binding k is the buffer entry at the k-th shared
   * position, and with distinct buffer names each shared name is bound exactly once.
   */
  lemma {:induction false} MatchedFollowsBuffer(bufferAttribs: Table<AttribInfo>, programAttribs: Table<AttribInfo>)
    ensures InBufferOrder(bufferAttribs, programAttribs, Matched(bufferAttribs, programAttribs))
    ensures UniqueKeys(bufferAttribs) ==>
              |Matched(bufferAttribs, programAttribs)| == |Keys(bufferAttribs) * Keys(programAttribs)|
  {
    if |bufferAttribs| > 0 {
      MatchedFollowsBuffer(bufferAttribs[1..], programAttribs);
      SharedNamesStep(bufferAttribs, programAttribs);
      var rest := Matched(bufferAttribs[1..], programAttribs);
      if bufferAttribs[0].0 in Keys(programAttribs) {
        BindBehindHead(bufferAttribs, programAttribs, rest, Matched(bufferAttribs, programAttribs));
      } else {
        SkipBehindHead(bufferAttribs, programAttribs, rest);
      }
    }
  }

  /** A binding put in front adds its name to the bound names. */
  lemma BindingNamesCons(b: Binding, rest: seq<Binding>)
    ensures BindingNames([b] + rest) == {b.name} + BindingNames(rest)
  {
    var m := [b] + rest;
    forall x | x in BindingNames(m) ensures x in {b.name} + BindingNames(rest) {
      var k :| 0 <= k < |m| && m[k].name == x;
      if k > 0 { assert rest[k - 1].name == x; }
    }
    assert m[0].name == b.name;
    forall x | x in BindingNames(rest) ensures x in BindingNames(m) {
      var k :| 0 <= k < |rest| && rest[k].name == x;
      assert m[k + 1].name == x;
    }
  }

  /** Binding k is the buffer's entry at the k-th shared position. */
  ghost predicate InBufferOrder(bufferAttribs: Table<AttribInfo>, programAttribs: Table<AttribInfo>, m: seq<Binding>) {
    var idx := SharedIndices(bufferAttribs, programAttribs);
    |m| == |idx| && forall k :: 0 <= k < |m| ==> idx[k] < |bufferAttribs| && bufferAttribs[idx[k]] == (m[k].name, m[k].buffer)
  }

  /** A head entry the program lacks adds no binding. */
  lemma SkipBehindHead(bufferAttribs: Table<AttribInfo>, programAttribs: Table<AttribInfo>, rest: seq<Binding>)
    requires |bufferAttribs| > 0 && bufferAttribs[0].0 !in Keys(programAttribs)
    requires InBufferOrder(bufferAttribs[1..], programAttribs, rest)
    ensures InBufferOrder(bufferAttribs, programAttribs, rest)
  {
    var idx := SharedIndices(bufferAttribs[1..], programAttribs);
    forall k | 0 <= k < |rest| ensures bufferAttribs[idx[k] + 1] == (rest[k].name, rest[k].buffer) {
      assert bufferAttribs[1..][idx[k]] == bufferAttribs[idx[k] + 1];
    }
  }

  /** A head entry the program has becomes the first binding, ahead of the rest. */
  lemma BindBehindHead(bufferAttribs: Table<AttribInfo>, programAttribs: Table<AttribInfo>, rest: seq<Binding>, m: seq<Binding>)
    requires |bufferAttribs| > 0 && bufferAttribs[0].0 in Keys(programAttribs)
    requires InBufferOrder(bufferAttribs[1..], programAttribs, rest)
    requires |m| == |rest| + 1 && m[0].name == bufferAttribs[0].0 && m[0].buffer == bufferAttribs[0].1 && m[1..] == rest
    ensures InBufferOrder(bufferAttribs, programAttribs, m)
  {
    var idx := SharedIndices(bufferAttribs[1..], programAttribs);
    var all := SharedIndices(bufferAttribs, programAttribs);
    assert all == [0] + ShiftUp(idx);
    forall k | 1 <= k < |m| ensures all[k] < |bufferAttribs| && bufferAttribs[all[k]] == (m[k].name, m[k].buffer) {
      assert m[k] == rest[k - 1];
      assert all[k] == idx[k - 1] + 1;
      assert bufferAttribs[1..][idx[k - 1]] == bufferAttribs[idx[k - 1] + 1];
    }
  }

  /** Dropping the buffer's first entry drops its name from the shared names exactly when the program has it. */
  lemma SharedNamesStep(bufferAttribs: Table<AttribInfo>, programAttribs: Table<AttribInfo>)
    requires |bufferAttribs| > 0
    ensures UniqueKeys(bufferAttribs) ==> UniqueKeys(bufferAttribs[1..])
    ensures var key := bufferAttribs[0].0;
            var shared := Keys(bufferAttribs) * Keys(programAttribs);
            var restShared := Keys(bufferAttribs[1..]) * Keys(programAttribs);
            && (key in Keys(programAttribs) ==> shared == {key} + restShared)
            && (key !in Keys(programAttribs) ==> shared == restShared)
            && (UniqueKeys(bufferAttribs) ==> key !in restShared)
  {
    KeysOfTail(bufferAttribs);
    var tail := bufferAttribs[1..];
    if UniqueKeys(bufferAttribs) {
      forall i, j | 0 <= i < j < |tail| ensures tail[i].0 != tail[j].0 {
        assert tail[i] == bufferAttribs[i + 1] && tail[j] == bufferAttribs[j + 1];
      }
      forall i | 0 <= i < |tail| ensures tail[i].0 != bufferAttribs[0].0 {
        assert tail[i] == bufferAttribs[i + 1];
      }
    }
  }

  /** The two calls that enable and describe each bound attribute. */
  function AttribCalls(m: seq<Binding>, stride: nat): (r: seq<GlCall>)
    ensures |r| == 2 * |m|
    ensures forall i :: 0 <= i < |r| ==> r[i].EnableVertexAttribArray? || r[i].VertexAttribPointer?
    ensures forall k :: 0 <= k < |m| ==>
              && r[2 * k] == EnableVertexAttribArray(m[k].program.location)
              && r[2 * k + 1] == VertexAttribPointer(m[k].program.location, m[k].buffer.typeInfo.components,
                                                     m[k].buffer.typeInfo.dataType, false, stride, m[k].buffer.location)
  {
    if |m| == 0 then []
    else
      var b := m[0];
      [EnableVertexAttribArray(b.program.location),
       VertexAttribPointer(b.program.location, b.buffer.typeInfo.components, b.buffer.typeInfo.dataType,
                           false, stride, b.buffer.location)]
      + AttribCalls(m[1..], stride)
  }

  /**
   * `_enableVertexBuffer`: bind the buffer, then for each attribute named in both layouts enable
   * the program's location and point it at the buffer's offset with the buffer's stride and
   * `normalize` false.
   */
  function EnableVertexBuffer(program: VertexFormat, vb: VertexBuffer): (r: seq<GlCall>)
    ensures var m := Matched(vb.format.attribs, program.attribs);
            && |r| == 1 + 2 * |m|
            && r[0] == BindArrayBuffer(vb.buffer)
            && (forall i :: 1 <= i < |r| ==> r[i].EnableVertexAttribArray? || r[i].VertexAttribPointer?)
            && forall k :: 0 <= k < |m| ==>
                 && r[1 + 2 * k] == EnableVertexAttribArray(m[k].program.location)
                 && r[2 + 2 * k] == VertexAttribPointer(m[k].program.location, m[k].buffer.typeInfo.components,
                                                        m[k].buffer.typeInfo.dataType, false,
                                                        vb.format.stride, m[k].buffer.location)
  {
    [BindArrayBuffer(vb.buffer)] + AttribCalls(Matched(vb.format.attribs, program.attribs), vb.format.stride)
  }

  /**
   * Every attribute pointer the binding sets up belongs to a name present in both layouts, uses
   * the program's location for that name, is not normalised, and uses the buffer's stride.
   */
  lemma EnableTouchesOnlySharedNames(program: VertexFormat, vb: VertexBuffer)
    ensures forall c :: c in EnableVertexBuffer(program, vb) && c.VertexAttribPointer? ==>
              && !c.normalized
              && c.stride == vb.format.stride
              && exists name :: name in Keys(vb.format.attribs) && name in Keys(program.attribs)
                                && Get(program.attribs, name).value.location == c.location
  {
    var r := EnableVertexBuffer(program, vb);
    var m := Matched(vb.format.attribs, program.attribs);
    forall c | c in r && c.VertexAttribPointer?
      ensures !c.normalized && c.stride == vb.format.stride
      ensures exists name :: name in Keys(vb.format.attribs) && name in Keys(program.attribs)
                             && Get(program.attribs, name).value.location == c.location
    {
      var i :| 0 <= i < |r| && r[i] == c;
      assert i > 0;
      var k := (i - 1) / 2;
      assert i == 1 + 2 * k || i == 2 + 2 * k;
      assert m[k].name in BindingNames(m);
    }
  }
}
