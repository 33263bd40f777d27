/** The reflection loop of the `Shader` constructor: each resource the
    reflector reports becomes one descriptor range of the root table and one
    entry of the `name -> index` map. The reflector's output is an input. */
module Binding {
  import opened Ints
  import opened Wrappers

  /** `D3D_SHADER_INPUT_TYPE`, the kind of a reflected binding. */
  datatype ShaderInputType =
    | CBuffer | TBuffer | Texture | Sampler | UavRwTyped | Structured | UavRwStructured
    | ByteAddress | UavRwByteAddress | UavAppendStructured | UavConsumeStructured
    | UavRwStructuredWithCounter | RtAccelerationStructure | UavFeedbackTexture

  /** The fields of `D3D12_SHADER_INPUT_BIND_DESC` the loop reads. */
  datatype BindDesc = BindDesc(name: string, kind: ShaderInputType, bindPoint: uint32, space: uint32)

  /** `D3D12_DESCRIPTOR_RANGE_TYPE`. */
  datatype RangeType = Srv | Uav | Cbv | SamplerRange

  /** `D3D12_DESCRIPTOR_RANGE_OFFSET_APPEND`. */
  const OFFSET_APPEND: uint32 := 0xFFFF_FFFF

  datatype DescriptorRange = DescriptorRange(
    rangeType: RangeType, numDescriptors: uint32, baseShaderRegister: uint32,
    registerSpace: uint32, offsetFromTableStart: uint32)

  datatype Layout = Layout(ranges: seq<DescriptorRange>, var2index: map<string, int>)

  /** `DX_ASSERT(0, "")` in the `default` case: the binding at `index` is of a kind the loop does not map. */
  datatype BindError = UnsupportedInputType(index: nat, kind: ShaderInputType)

  /** The `switch`: constant buffers are CBVs, read-only structured buffers
      SRVs, read/write typed and structured buffers UAVs; nothing else is handled. */
  function RangeTypeOf(kind: ShaderInputType): (r: Option<RangeType>)
    ensures r == Some(Cbv) <==> kind == CBuffer
    ensures r == Some(Srv) <==> kind == Structured
    ensures r == Some(Uav) <==> kind == UavRwTyped || kind == UavRwStructured
    ensures r != Some(SamplerRange)
  {
    match kind
    case CBuffer => Some(Cbv)
    case Structured => Some(Srv)
    case UavRwTyped => Some(Uav)
    case UavRwStructured => Some(Uav)
    case _ => None
  }

  predicate Supported(b: BindDesc) { RangeTypeOf(b.kind).Some? }

  /** The range a supported binding becomes: one descriptor at the binding's
      register and space, appended after the previous range. */
  predicate RangeDescribes(range: DescriptorRange, b: BindDesc)
  {
    && RangeTypeOf(b.kind) == Some(range.rangeType)
    && range.numDescriptors == 1
    && range.baseShaderRegister == b.bindPoint
    && range.registerSpace == b.space
    && range.offsetFromTableStart == OFFSET_APPEND
  }

  /** The map of `_var2index[bind.Name] = i` over bindings `0 .. n-1`: every
      name of those bindings is a key, and it maps to the last index carrying it. */
  ghost predicate IndexMapOf(binds: seq<BindDesc>, n: nat, m: map<string, int>)
    requires n <= |binds|
  {
    && (forall name :: name in m ==> 0 <= m[name] < n && binds[m[name]].name == name)
    && (forall i :: 0 <= i < n ==> binds[i].name in m && i <= m[binds[i].name])
  }

  ghost predicate IsLayoutOf(binds: seq<BindDesc>, layout: Layout)
  {
    && |layout.ranges| == |binds|
    && (forall i :: 0 <= i < |binds| ==> RangeDescribes(layout.ranges[i], binds[i]))
    && IndexMapOf(binds, |binds|, layout.var2index)
  }

  /** The loop over `desc.BoundResources`: one range pushed and one map entry
      written per binding, in the reflector's order; it stops at the first
      binding of an unsupported kind. */
  method BuildLayout(binds: seq<BindDesc>) returns (r: Result<Layout, BindError>)
    ensures r.Ok? <==> forall i :: 0 <= i < |binds| ==> Supported(binds[i])
    ensures r.Ok? ==> IsLayoutOf(binds, r.value)
    ensures r.Err? ==>
              && r.error.index < |binds|
              && r.error.kind == binds[r.error.index].kind
              && !Supported(binds[r.error.index])
              && forall i :: 0 <= i < r.error.index ==> Supported(binds[i])
  {
    var ranges: seq<DescriptorRange> := [];
    var var2index: map<string, int> := map[];
    var i := 0;
    while i < |binds|
      invariant 0 <= i <= |binds|
      invariant |ranges| == i
      invariant forall k :: 0 <= k < i ==> Supported(binds[k]) && RangeDescribes(ranges[k], binds[k])
      invariant IndexMapOf(binds, i, var2index)
    {
      var bind := binds[i];
      var rangeType: RangeType;
      match RangeTypeOf(bind.kind) {
        case None =>
          return Err(UnsupportedInputType(i, bind.kind));
        case Some(t) =>
          rangeType := t;
      }
      var range := DescriptorRange(rangeType, 1, bind.bindPoint, bind.space, OFFSET_APPEND);
      ranges := ranges + [range];
      var2index := var2index[bind.name := i];
      i := i + 1;
    }
    return Ok(Layout(ranges, var2index));
  }

  /** Two layouts of the same reflection are equal: the `name -> index`
      assignment depends only on the reflector's enumeration order. */
  lemma {:induction false} LayoutDeterministic(binds: seq<BindDesc>, l1: Layout, l2: Layout)
    requires IsLayoutOf(binds, l1) && IsLayoutOf(binds, l2)
    ensures l1 == l2
  {
    forall k | 0 <= k < |binds| ensures l1.ranges[k] == l2.ranges[k] {
      assert RangeDescribes(l1.ranges[k], binds[k]) && RangeDescribes(l2.ranges[k], binds[k]);
    }
    assert l1.ranges == l2.ranges;
    var m1, m2 := l1.var2index, l2.var2index;
    forall name | name in m1 ensures name in m2 && m1[name] == m2[name] {
      assert binds[m1[name]].name == name;
      assert binds[m2[binds[m1[name]].name]].name == name;
    }
    forall name | name in m2 ensures name in m1 {
      assert binds[m2[name]].name == name;
    }
    assert m1 == m2;
  }

  /** Every index in the map names one of the layout's ranges. */
  lemma IndicesAddressRanges(binds: seq<BindDesc>, layout: Layout)
    requires IsLayoutOf(binds, layout)
    ensures forall name :: name in layout.var2index ==> 0 <= layout.var2index[name] < |layout.ranges|
    ensures |layout.var2index| <= |layout.ranges|
  {
    MapKeysAreNames(binds, layout);
    NamesBound(binds);
  }

  predicate DistinctNames(binds: seq<BindDesc>)
  {
    forall i, j :: 0 <= i < j < |binds| ==> binds[i].name != binds[j].name
  }

  /** The set of names of a sequence of bindings. */
  function Names(binds: seq<BindDesc>): set<string>
    decreases |binds|
  {
    if binds == [] then {} else Names(binds[..|binds| - 1]) + {binds[|binds| - 1].name}
  }

  lemma {:induction false} NamesMembership(binds: seq<BindDesc>, name: string)
    ensures name in Names(binds) <==> exists i :: 0 <= i < |binds| && binds[i].name == name
    decreases |binds|
  {
    if binds != [] {
      var init := binds[..|binds| - 1];
      NamesMembership(init, name);
      if name in Names(init) {
        var k :| 0 <= k < |init| && init[k].name == name;
        assert binds[k].name == name;
      }
      if i :| 0 <= i < |binds| - 1 && binds[i].name == name {
        assert init[i].name == name;
      }
    }
  }

  lemma {:induction false} NamesBound(binds: seq<BindDesc>)
    ensures |Names(binds)| <= |binds|
    ensures DistinctNames(binds) ==> |Names(binds)| == |binds|
    decreases |binds|
  {
    if binds != [] {
      var init := binds[..|binds| - 1];
      var last := binds[|binds| - 1];
      NamesBound(init);
      if DistinctNames(binds) {
        assert DistinctNames(init) by {
          forall i, j | 0 <= i < j < |init| ensures init[i].name != init[j].name {
            assert init[i] == binds[i] && init[j] == binds[j];
          }
        }
        NamesMembership(init, last.name);
      }
    }
  }

  /** The keys of a binding map are exactly the reflected names. */
  lemma MapKeysAreNames(binds: seq<BindDesc>, layout: Layout)
    requires IsLayoutOf(binds, layout)
    ensures layout.var2index.Keys == Names(binds)
  {
    forall name ensures name in layout.var2index <==> name in Names(binds) {
      NamesMembership(binds, name);
      if name in layout.var2index {
        assert binds[layout.var2index[name]].name == name;
      }
    }
  }

  /** With distinct names (the usual case for HLSL globals) the map has one
      entry per range, and entry `i` is binding `i`. */
  lemma DistinctNamesFillMap(binds: seq<BindDesc>, layout: Layout)
    requires IsLayoutOf(binds, layout) && DistinctNames(binds)
    ensures |layout.var2index| == |layout.ranges|
    ensures forall i :: 0 <= i < |binds| ==> layout.var2index[binds[i].name] == i
  {
    MapKeysAreNames(binds, layout);
    NamesBound(binds);
    forall i | 0 <= i < |binds| ensures layout.var2index[binds[i].name] == i {
      var k := layout.var2index[binds[i].name];
      assert binds[k].name == binds[i].name;
    }
  }

  /** Two bindings reported under one name: the later index overwrites the
      earlier, so the map is smaller than the root table and its one entry
      points past the map's own size. */
  lemma DuplicateNameShrinksMap(layout: Layout)
    requires IsLayoutOf([BindDesc("a", UavRwStructured, 0, 0), BindDesc("a", UavRwStructured, 1, 0)], layout)
    ensures |layout.ranges| == 2 && |layout.var2index| == 1
    ensures "a" in layout.var2index && layout.var2index["a"] == 1 >= |layout.var2index|
  {
    var binds := [BindDesc("a", UavRwStructured, 0, 0), BindDesc("a", UavRwStructured, 1, 0)];
    assert binds[1].name == "a" && 1 <= layout.var2index["a"];
    forall name | name in layout.var2index ensures name == "a" {
      assert binds[layout.var2index[name]].name == name;
    }
    assert layout.var2index.Keys == {"a"};
  }
}
