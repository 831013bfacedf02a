// How `mux-compiler/src/codegen/classes.rs` lays an enum out: a discriminant and
// one slot per payload position, wide enough for that position in every variant.
module EnumLayout {
  import opened Options
  import opened Walks
  import opened EnumOrder

  /** An LLVM type, as far as layout goes; `Words` is an array of `i64`. */
  datatype Shape =
    | I32
    | I64
    | F64
    | I1
    | Ptr
    | Words(count: nat)
    | Struct(fields: seq<Shape>)

  /** Alignments of the target's data layout. */
  datatype Target = Target(word: nat, float: nat, pointer: nat)

  // The target, and the names that are enums (`enum_variants` is seeded with all of them,
  // `optional` and `result` included).
  datatype Env = Env(target: Target, declared: set<string>)

  type Types = map<string, Shape>

  const U32_MAX: nat := 0xFFFF_FFFF

  function Max(a: nat, b: nat): nat {
    if a < b then b else a
  }

  /** The first multiple of `alignment`, from `multiple` on, that is at least `n`. */
  function NextMultiple(alignment: nat, n: nat, multiple: nat): (rounded: nat)
    ensures rounded >= n
    decreases n - multiple
  {
    if n <= multiple || alignment == 0 then Max(n, multiple) else NextMultiple(alignment, n, multiple + alignment)
  }

  function RoundUp(n: nat, alignment: nat): (rounded: nat)
    ensures rounded >= n
  {
    NextMultiple(alignment, n, 0)
  }

  lemma {:induction false} NextMultipleIsLeast(alignment: nat, n: nat, multiple: nat, factor: nat)
    requires alignment > 0 && multiple == factor * alignment && (multiple == 0 || multiple < n + alignment)
    ensures exists f: nat :: NextMultiple(alignment, n, multiple) == f * alignment
    ensures NextMultiple(alignment, n, multiple) < n + alignment
    decreases n - multiple
  {
    if n <= multiple {
      assert NextMultiple(alignment, n, multiple) == factor * alignment;
    } else {
      NextMultipleIsLeast(alignment, n, multiple + alignment, factor + 1);
    }
  }

  /** Rounding up gives the least multiple of the alignment that is no smaller. */
  lemma {:induction false} RoundUpIsLeast(n: nat, alignment: nat)
    requires alignment > 0
    ensures exists f: nat :: RoundUp(n, alignment) == f * alignment
    ensures n <= RoundUp(n, alignment) < n + alignment
  {
    NextMultipleIsLeast(alignment, n, 0, 0);
  }

  function Alignment(target: Target, shape: Shape): nat {
    match shape
    case I32 => 4
    case I64 => target.word
    case F64 => target.float
    case I1 => 1
    case Ptr => target.pointer
    case Words(_) => target.word
    case Struct(fields) => WidestAlignment(target, fields)
  }

  function WidestAlignment(target: Target, fields: seq<Shape>): nat {
    if fields == [] then 1 else Max(Alignment(target, fields[0]), WidestAlignment(target, fields[1..]))
  }

  /** `abi_store_size` */
  function Size(target: Target, shape: Shape): nat {
    match shape
    case I32 => 4
    case I64 => 8
    case F64 => 8
    case I1 => 1
    case Ptr => 8
    case Words(count) => 8 * count
    case Struct(fields) => RoundUp(End(target, fields, 0), WidestAlignment(target, fields))
  }

  /** Where the fields end, laid out one after another from `offset`. */
  function End(target: Target, fields: seq<Shape>, offset: nat): nat {
    if fields == [] then offset
    else End(target, fields[1..], RoundUp(offset, Alignment(target, fields[0])) + Size(target, fields[0]))
  }

  /** A struct is aligned as strictly as its strictest field. */
  lemma {:induction false} StrictestField(target: Target, fields: seq<Shape>, f: nat)
    requires f < |fields|
    ensures Alignment(target, fields[f]) <= WidestAlignment(target, fields)
    ensures WidestAlignment(target, fields) > 1 ==>
              exists g :: 0 <= g < |fields| && Alignment(target, fields[g]) == WidestAlignment(target, fields)
  {
    if f > 0 {
      StrictestField(target, fields[1..], f - 1);
    } else if |fields| > 1 {
      StrictestField(target, fields[1..], 0);
    }
    if WidestAlignment(target, fields) != Alignment(target, fields[0]) && WidestAlignment(target, fields) > 1 {
      var g :| 0 <= g < |fields[1..]| && Alignment(target, fields[1..][g]) == WidestAlignment(target, fields[1..]);
      assert fields[g + 1] == fields[1..][g];
    }
  }

  /** Each field comes after those before it, on its own alignment. */
  lemma {:induction false} FieldsInTurn(target: Target, fields: seq<Shape>, last: Shape, offset: nat)
    ensures End(target, fields + [last], offset) ==
            RoundUp(End(target, fields, offset), Alignment(target, last)) + Size(target, last)
    decreases |fields|
  {
    if fields == [] {
      assert [last][1..] == [];
    } else {
      assert (fields + [last])[1..] == fields[1..] + [last];
      FieldsInTurn(target, fields[1..], last,
                   RoundUp(offset, Alignment(target, fields[0])) + Size(target, fields[0]));
    }
  }

  // -------------------------------------------------------------------- payloads

  /** `nested_user_enum_name` */
  function NestedUserEnum(env: Env, kind: Kind): Option<string> {
    if kind.Named? && kind.name != "optional" && kind.name != "result" && kind.name in env.declared then Some(kind.name)
    else None
  }

  /** `type_kind_to_llvm_type` */
  function PayloadShape(env: Env, types: Types, kind: Kind): Option<Shape> {
    match kind
    case Int => Some(I64)
    case Char => Some(I64)
    case Byte => Some(I64)
    case Float => Some(F64)
    case Bool => Some(I1)
    case Boxed => Some(Ptr)
    case Named(name) =>
      if NestedUserEnum(env, kind).None? then Some(Ptr)
      else if name in types then Some(types[name])
      else None
    case Void => None
    case Auto => None
  }

  /** Optionals and results are the runtime's: pointers, even where user enums would be stored inline. */
  lemma {:induction false} RuntimeEnumsArePointers(env: Env, types: Types, kind: Kind)
    ensures NestedUserEnum(env, kind).Some? <==>
            kind.Named? && kind.name in env.declared && kind != Named("optional") && kind != Named("result")
    ensures kind == Named("optional") || kind == Named("result") ==> PayloadShape(env, types, kind) == Some(Ptr)
  {
  }

  /** The widest of the payloads, if all can be laid out. */
  function WidestSize(env: Env, types: Types, kinds: seq<Kind>): Option<nat> {
    if kinds == [] then Some(0)
    else
      var n := |kinds| - 1;
      var before, last := WidestSize(env, types, kinds[..n]), PayloadShape(env, types, kinds[n]);
      if before.Some? && last.Some? then Some(Max(before.value, Size(env.target, last.value))) else None
  }

  lemma {:induction false} WidestCovers(env: Env, types: Types, kinds: seq<Kind>, k: nat)
    requires k < |kinds| && WidestSize(env, types, kinds).Some?
    ensures PayloadShape(env, types, kinds[k]).Some?
    ensures Size(env.target, PayloadShape(env, types, kinds[k]).value) <= WidestSize(env, types, kinds).value
    decreases |kinds|
  {
    var n := |kinds| - 1;
    if k < n {
      WidestCovers(env, types, kinds[..n], k);
    }
  }

  lemma {:induction false} WidestExists(env: Env, types: Types, kinds: seq<Kind>)
    ensures WidestSize(env, types, kinds).Some? <==>
            forall k :: 0 <= k < |kinds| ==> PayloadShape(env, types, kinds[k]).Some?
    decreases |kinds|
  {
    if kinds != [] {
      var n := |kinds| - 1;
      WidestExists(env, types, kinds[..n]);
      assert kinds == kinds[..n] + [kinds[n]];
    }
  }

  function WordsFor(size: nat): (words: nat)
    ensures words >= 1 && 8 * words >= size
    ensures words > 1 ==> 8 * (words - 1) < size
  {
    Max((size + 7) / 8, 1)
  }

  /** Every candidate can be laid out and their array is not too long for LLVM. */
  predicate LaidOut(env: Env, types: Types, kinds: seq<Kind>) {
    var widest := WidestSize(env, types, kinds);
    widest.Some? && WordsFor(widest.value) <= U32_MAX
  }

  /** `widest_payload_type` */
  method WidestPayloadType(env: Env, types: Types, kinds: seq<Kind>) returns (slot: Option<Shape>)
    ensures slot == if LaidOut(env, types, kinds) then Some(Words(WordsFor(WidestSize(env, types, kinds).value)))
                    else None
  {
    var maxSize: nat := 0;
    for k := 0 to |kinds|
      invariant WidestSize(env, types, kinds[..k]) == Some(maxSize)
    {
      assert kinds[..k + 1][..k] == kinds[..k];
      var candidate := PayloadShape(env, types, kinds[k]);
      if candidate.None? {
        WidestExists(env, types, kinds);
        return None;
      }
      maxSize := Max(maxSize, Size(env.target, candidate.value));
    }
    assert kinds[..|kinds|] == kinds;
    var words := Max((maxSize + 7) / 8, 1);
    if words > U32_MAX {
      return None;
    }
    slot := Some(Words(words));
  }

  ghost predicate HasNested(env: Env, kinds: seq<Kind>) {
    exists k :: 0 <= k < |kinds| && NestedUserEnum(env, kinds[k]).Some?
  }

  /** The slot of one position, given what the variants put there. */
  ghost function SlotFor(env: Env, types: Types, kinds: seq<Kind>): Shape {
    if kinds == [] then I32
    else if HasNested(env, kinds) then
      if LaidOut(env, types, kinds) then Words(WordsFor(WidestSize(env, types, kinds).value)) else Ptr
    else if forall k :: 0 <= k < |kinds| ==> kinds[k] == kinds[0] then
      match kinds[0]
      case Int => I64
      case Float => F64
      case Bool => I1
      case _ => Ptr
    else Ptr
  }

  /** `determine_union_field_type` */
  method DetermineUnionFieldType(env: Env, types: Types, kinds: seq<Kind>) returns (slot: Shape)
    ensures slot == SlotFor(env, types, kinds)
  {
    if kinds == [] {
      return I32;
    }
    if exists k :: 0 <= k < |kinds| && NestedUserEnum(env, kinds[k]).Some? {
      var widest := WidestPayloadType(env, types, kinds);
      return if widest.Some? then widest.value else Ptr;
    }
    if forall k :: 0 <= k < |kinds| ==> kinds[k] == kinds[0] {
      match kinds[0] {
        case Int => slot := I64;
        case Float => slot := F64;
        case Bool => slot := I1;
        case _ => slot := Ptr;
      }
    } else {
      slot := Ptr;
    }
  }

  /** Without a nested enum every payload fits its slot. */
  lemma {:induction false} PlainPayloadFits(env: Env, types: Types, kinds: seq<Kind>, k: nat)
    requires k < |kinds| && !HasNested(env, kinds) && PayloadShape(env, types, kinds[k]).Some?
    ensures Size(env.target, PayloadShape(env, types, kinds[k]).value) <= Size(env.target, SlotFor(env, types, kinds))
  {
    assert NestedUserEnum(env, kinds[k]).None?;
  }

  // A position that is the same everywhere and holds no nested enum has the shape of its
  // payload, except that characters and bytes are put into a pointer.
  lemma {:induction false} UniformSlotIsPayload(env: Env, types: Types, kinds: seq<Kind>)
    requires kinds != [] && (forall k :: 0 <= k < |kinds| ==> kinds[k] == kinds[0])
    requires NestedUserEnum(env, kinds[0]).None? && PayloadShape(env, types, kinds[0]).Some?
    ensures SlotFor(env, types, kinds) == PayloadShape(env, types, kinds[0]).value <==>
            !kinds[0].Char? && !kinds[0].Byte?
    ensures SlotFor(env, types, kinds) == Ptr <==> !kinds[0].Int? && !kinds[0].Float? && !kinds[0].Bool?
  {
    assert !HasNested(env, kinds) by {
      assert forall k :: 0 <= k < |kinds| ==> NestedUserEnum(env, kinds[k]).None?;
    }
  }

  /** With one, every payload fits if all candidates can be laid out; otherwise those that fit a pointer do. */
  lemma {:induction false} NestedPayloadFits(env: Env, types: Types, kinds: seq<Kind>, k: nat)
    requires k < |kinds| && HasNested(env, kinds) && PayloadShape(env, types, kinds[k]).Some?
    ensures var size := Size(env.target, PayloadShape(env, types, kinds[k]).value);
            size <= Size(env.target, SlotFor(env, types, kinds)) <==> LaidOut(env, types, kinds) || size <= 8
  {
    if LaidOut(env, types, kinds) {
      WidestCovers(env, types, kinds, k);
    }
  }

  // -------------------------------------------------------------------- one enum

  function FieldCount(variants: seq<Variant>): nat {
    if variants == [] then 0 else Max(FieldCount(variants[..|variants| - 1]), |variants[|variants| - 1].data|)
  }

  /** What the variants have at position `p`. */
  function Column(variants: seq<Variant>, p: nat): seq<Kind> {
    if variants == [] then []
    else
      var n := |variants| - 1;
      Column(variants[..n], p) + if p < |variants[n].data| then [variants[n].data[p]] else []
  }

  lemma {:induction false} ColumnHas(variants: seq<Variant>, v: nat, p: nat) returns (k: nat)
    requires v < |variants| && p < |variants[v].data|
    ensures k < |Column(variants, p)| && Column(variants, p)[k] == variants[v].data[p]
    ensures p < FieldCount(variants)
    decreases |variants|
  {
    var n := |variants| - 1;
    if v < n {
      k := ColumnHas(variants[..n], v, p);
    } else {
      k := |Column(variants[..n], p)|;
    }
  }

  lemma {:induction false} ColumnOnly(variants: seq<Variant>, p: nat, k: nat) returns (v: nat)
    requires k < |Column(variants, p)|
    ensures v < |variants| && p < |variants[v].data| && variants[v].data[p] == Column(variants, p)[k]
    decreases |variants|
  {
    var n := |variants| - 1;
    if k < |Column(variants[..n], p)| {
      v := ColumnOnly(variants[..n], p, k);
    } else {
      v := n;
    }
  }

  /** There is a slot for a position exactly if some variant has a payload there. */
  lemma {:induction false} SlotsAreUsed(variants: seq<Variant>, p: nat)
    ensures p < FieldCount(variants) <==> exists v :: 0 <= v < |variants| && p < |variants[v].data|
    ensures p < FieldCount(variants) <==> Column(variants, p) != []
    decreases |variants|
  {
    if variants != [] {
      var n := |variants| - 1;
      SlotsAreUsed(variants[..n], p);
      assert variants == variants[..n] + [variants[n]];
    }
  }

  ghost function Slots(env: Env, types: Types, variants: seq<Variant>, n: nat): (slots: seq<Shape>)
    ensures |slots| == n
  {
    if n == 0 then [] else Slots(env, types, variants, n - 1) + [SlotFor(env, types, Column(variants, n - 1))]
  }

  lemma {:induction false} SlotAt(env: Env, types: Types, variants: seq<Variant>, n: nat, p: nat)
    requires p < n
    ensures Slots(env, types, variants, n)[p] == SlotFor(env, types, Column(variants, p))
    decreases n
  {
    if p < n - 1 {
      SlotAt(env, types, variants, n - 1, p);
    }
  }

  /** `generate_enum_type`: the discriminant, then the slots. */
  ghost function EnumShape(env: Env, types: Types, variants: seq<Variant>): Shape {
    Struct([I32] + Slots(env, types, variants, FieldCount(variants)))
  }

  // -------------------------------------------------------------------- all enums

  ghost predicate AllEnums(nodes: seq<Node>, order: seq<nat>) {
    forall k :: 0 <= k < |order| ==> IsEnum(nodes, order[k])
  }

  /** `type_map` after the first `n` enums of the list have been generated in turn. */
  ghost function Generated(env: Env, types: Types, nodes: seq<Node>, order: seq<nat>, n: nat): Types
    requires AllEnums(nodes, order) && n <= |order|
  {
    if n == 0 then types
    else
      var before := Generated(env, types, nodes, order, n - 1);
      assert IsEnum(nodes, order[n - 1]);
      before[nodes[order[n - 1]].name := EnumShape(env, before, nodes[order[n - 1]].variants)]
  }

  /** The loop that collects the types used at one position. */
  method CollectColumn(variants: seq<Variant>, p: nat) returns (fieldTypes: seq<Kind>)
    ensures fieldTypes == Column(variants, p)
  {
    fieldTypes := [];
    for v := 0 to |variants|
      invariant fieldTypes == Column(variants[..v], p)
    {
      assert variants[..v + 1][..v] == variants[..v];
      if p < |variants[v].data| {
        fieldTypes := fieldTypes + [variants[v].data[p]];
      }
    }
    assert variants[..|variants|] == variants;
  }

  /** The part of the code generator that lays out enums. */
  class CodeGenerator {
    const env: Env
    var typeMap: Types

    constructor (env: Env, typeMap: Types)
      ensures this.env == env && this.typeMap == typeMap
    {
      this.env := env;
      this.typeMap := typeMap;
    }

    /** `get_enum_union_field_types` */
    method GetEnumUnionFieldTypes(variants: seq<Variant>) returns (unionTypes: seq<Shape>)
      ensures unionTypes == Slots(env, typeMap, variants, FieldCount(variants))
    {
      unionTypes := [];
      for p := 0 to FieldCount(variants)
        invariant unionTypes == Slots(env, typeMap, variants, p)
      {
        var fieldTypes := CollectColumn(variants, p);
        var unionType := DetermineUnionFieldType(env, typeMap, fieldTypes);
        unionTypes := unionTypes + [unionType];
      }
    }

    /** `generate_enum_type` */
    method GenerateEnumType(name: string, variants: seq<Variant>)
      modifies this
      ensures typeMap == old(typeMap)[name := EnumShape(env, old(typeMap), variants)]
    {
      var unionTypes := GetEnumUnionFieldTypes(variants);
      typeMap := typeMap[name := Struct([I32] + unionTypes)];
    }

    /** One enum after another. */
    method GenerateInOrder(nodes: seq<Node>, order: seq<nat>)
      requires AllEnums(nodes, order)
      modifies this
      ensures typeMap == Generated(env, old(typeMap), nodes, order, |order|)
    {
      for k := 0 to |order|
        invariant typeMap == Generated(env, old(typeMap), nodes, order, k)
      {
        GenerateEnumType(nodes[order[k]].name, nodes[order[k]].variants);
      }
    }

    /** The enum part of `generate_user_defined_types`. */
    method GenerateUserEnums(nodes: seq<Node>) returns (order: seq<nat>, ghost first: seq<nat>, ghost rest: seq<nat>)
      requires DistinctNames(nodes)
      modifies this
      ensures order == first + rest && IsLaidOutFirst(nodes, first) && IsLeftover(nodes, rest)
      ensures AllEnums(nodes, order) && typeMap == Generated(env, old(typeMap), nodes, order, |order|)
    {
      ghost var rounds;
      order, first, rest, rounds := EnumGenerationOrder(nodes);
      OrderHasEnums(nodes, order, first, rest);
      GenerateInOrder(nodes, order);
    }
  }

  lemma {:induction false} OrderHasEnums(nodes: seq<Node>, order: seq<nat>, first: seq<nat>, rest: seq<nat>)
    requires order == first + rest && IsLaidOutFirst(nodes, first) && IsLeftover(nodes, rest)
    ensures AllEnums(nodes, order)
  {
    forall k | 0 <= k < |order| ensures IsEnum(nodes, order[k]) {
      assert if k < |first| then order[k] in first else order[k] in rest;
    }
  }

  // --------------------------------------------------------------------- results

  /** `slot_fits` of `store_constructor_field`: the nested enum's struct is stored inline. */
  ghost predicate SlotFits(env: Env, types: Types, enumName: string, p: nat, inner: string) {
    && enumName in types && types[enumName].Struct? && p + 1 < |types[enumName].fields|
    && inner in types
    && Size(env.target, types[enumName].fields[p + 1]) >= Size(env.target, types[inner])
  }

  /** What is generated later leaves other entries alone. */
  lemma {:induction false} LaterKeeps(env: Env, types: Types, nodes: seq<Node>, order: seq<nat>, k: nat, n: nat,
                                      name: string)
    requires AllEnums(nodes, order) && k <= n <= |order|
    requires forall m :: k <= m < n ==> nodes[order[m]].name != name
    ensures name in Generated(env, types, nodes, order, n) <==> name in Generated(env, types, nodes, order, k)
    ensures name in Generated(env, types, nodes, order, k) ==>
              Generated(env, types, nodes, order, n)[name] == Generated(env, types, nodes, order, k)[name]
    decreases n
  {
    if k < n {
      LaterKeeps(env, types, nodes, order, k, n - 1, name);
    }
  }

  /** An enum keeps the shape it got when its turn came. */
  lemma {:induction false} ShapeOf(env: Env, types: Types, nodes: seq<Node>, order: seq<nat>, k: nat)
    requires DistinctNames(nodes) && AllEnums(nodes, order) && Distinct(order) && k < |order|
    ensures var name, final := nodes[order[k]].name, Generated(env, types, nodes, order, |order|);
            name in final && final[name] ==
              EnumShape(env, Generated(env, types, nodes, order, k), nodes[order[k]].variants)
  {
    LaterKeeps(env, types, nodes, order, k + 1, |order|, nodes[order[k]].name);
  }

  /** The slot an enum ends up with at a position. */
  lemma {:induction false} SlotOf(env: Env, types: Types, nodes: seq<Node>, order: seq<nat>, k: nat, v: nat, p: nat)
    requires DistinctNames(nodes) && AllEnums(nodes, order) && Distinct(order) && k < |order|
    requires v < |nodes[order[k]].variants| && p < |nodes[order[k]].variants[v].data|
    ensures var name, final := nodes[order[k]].name, Generated(env, types, nodes, order, |order|);
            && name in final && final[name].Struct? && p + 1 < |final[name].fields|
            && final[name].fields[p + 1] ==
               SlotFor(env, Generated(env, types, nodes, order, k), Column(nodes[order[k]].variants, p))
  {
    var variants := nodes[order[k]].variants;
    var column := ColumnHas(variants, v, p);
    ShapeOf(env, types, nodes, order, k);
    SlotAt(env, Generated(env, types, nodes, order, k), variants, FieldCount(variants), p);
  }

  // ------------------------------------------------------- payloads laid out before

  /** No enum of that name is generated at or after `k`. */
  ghost predicate SettledBy(nodes: seq<Node>, order: seq<nat>, k: nat, kind: Kind)
    requires AllEnums(nodes, order)
  {
    kind.Named? ==> forall m :: k <= m < |order| ==> nodes[order[m]].name != kind.name
  }

  lemma {:induction false} SettledShape(env: Env, types: Types, nodes: seq<Node>, order: seq<nat>, k: nat, kind: Kind)
    requires AllEnums(nodes, order) && k <= |order| && SettledBy(nodes, order, k, kind)
    ensures PayloadShape(env, Generated(env, types, nodes, order, |order|), kind) ==
            PayloadShape(env, Generated(env, types, nodes, order, k), kind)
  {
    if kind.Named? {
      LaterKeeps(env, types, nodes, order, k, |order|, kind.name);
    }
  }

  /** The payload's type is no wider than the slot of its position. */
  ghost predicate PayloadFits(env: Env, types: Types, enumName: string, p: nat, kind: Kind) {
    && PayloadShape(env, types, kind).Some?
    && enumName in types && types[enumName].Struct? && p + 1 < |types[enumName].fields|
    && Size(env.target, PayloadShape(env, types, kind).value) <= Size(env.target, types[enumName].fields[p + 1])
  }

  // A payload that was settled when its enum's turn came fits exactly if the position could be
  // laid out, or a pointer holds it anyway.
  lemma {:induction false} SettledPayloadFits(env: Env, types: Types, nodes: seq<Node>, order: seq<nat>, k: nat,
                                              v: nat, p: nat)
    requires DistinctNames(nodes) && AllEnums(nodes, order) && Distinct(order) && k < |order|
    requires v < |nodes[order[k]].variants| && p < |nodes[order[k]].variants[v].data|
    requires SettledBy(nodes, order, k, nodes[order[k]].variants[v].data[p])
    ensures var name, kind := nodes[order[k]].name, nodes[order[k]].variants[v].data[p];
            var before, final := Generated(env, types, nodes, order, k), Generated(env, types, nodes, order, |order|);
            var column := Column(nodes[order[k]].variants, p);
            PayloadShape(env, final, kind).Some? ==>
              (PayloadFits(env, final, name, p, kind) <==>
                !HasNested(env, column) || LaidOut(env, before, column) ||
                Size(env.target, PayloadShape(env, final, kind).value) <= 8)
  {
    var kind := nodes[order[k]].variants[v].data[p];
    SlotOf(env, types, nodes, order, k, v, p);
    SettledShape(env, types, nodes, order, k, kind);
    var before := Generated(env, types, nodes, order, k);
    var column := Column(nodes[order[k]].variants, p);
    var c := ColumnHas(nodes[order[k]].variants, v, p);
    if PayloadShape(env, before, kind).Some? {
      if HasNested(env, column) {
        NestedPayloadFits(env, before, column, c);
      } else {
        PlainPayloadFits(env, before, column, c);
      }
    }
  }

  // ------------------------------------------------------------------ acyclic enums

  /** Something the language lets a variant carry: neither `void` nor `auto`, and no enum nobody generates. */
  predicate Placeable(env: Env, types: Types, nodes: seq<Node>, kind: Kind) {
    && !kind.Void? && !kind.Auto?
    && (NestedUserEnum(env, kind).Some? ==> kind.name in Names(nodes) || kind.name in types)
  }

  /** The order `EnumGenerationOrder` gives. */
  ghost predicate IsOrder(nodes: seq<Node>, order: seq<nat>, first: seq<nat>, rest: seq<nat>) {
    && DistinctNames(nodes) && order == first + rest && AllEnums(nodes, order) && Distinct(order)
    && IsLaidOutFirst(nodes, first) && IsLeftover(nodes, rest)
  }

  predicate HasPayload(nodes: seq<Node>, i: nat, v: nat, p: nat) {
    IsEnum(nodes, i) && v < |nodes[i].variants| && p < |nodes[i].variants[v].data|
  }

  /** An enum that a first one other than itself embeds has its turn earlier. */
  lemma {:induction false} FirstEmbedsEarlier(nodes: seq<Node>, order: seq<nat>, first: seq<nat>, rest: seq<nat>,
                                              k: nat, m: nat)
    requires IsOrder(nodes, order, first, rest) && k < |first| && m < |order|
    requires (order[k], order[m]) in Embedding(nodes)
    ensures m < k
  {
    assert order[m] in first[..k];
  }

  /** Payloads that an enum outside cycles and other than itself embeds are settled before its turn. */
  lemma {:induction false} FirstIsSettled(nodes: seq<Node>, order: seq<nat>, first: seq<nat>, rest: seq<nat>, k: nat,
                                          v: nat, p: nat)
    requires IsOrder(nodes, order, first, rest) && k < |first| && HasPayload(nodes, order[k], v, p)
    requires nodes[order[k]].variants[v].data[p] != Named(nodes[order[k]].name)
    ensures SettledBy(nodes, order, k, nodes[order[k]].variants[v].data[p])
  {
    var i := order[k];
    var kind := nodes[i].variants[v].data[p];
    forall m: nat | m < |order| && kind == Named(nodes[order[m]].name) ensures m < k {
      EmbedsNamed(nodes, i, order[m], v, p);
      FirstEmbedsEarlier(nodes, order, first, rest, k, m);
    }
  }

  lemma {:induction false} EmbedsNamed(nodes: seq<Node>, i: nat, j: nat, v: nat, p: nat)
    requires IsEnum(nodes, j) && HasPayload(nodes, i, v, p)
    requires nodes[i].variants[v].data[p] == Named(nodes[j].name) && nodes[i].name != nodes[j].name
    ensures (i, j) in Embedding(nodes)
  {
    assert Carries(nodes[i], nodes[j].name);
  }

  lemma {:induction false} EveryEnumGenerated(env: Env, types: Types, nodes: seq<Node>, order: seq<nat>, k: nat)
    requires DistinctNames(nodes) && AllEnums(nodes, order) && Distinct(order) && k < |order|
    ensures nodes[order[k]].name in Generated(env, types, nodes, order, |order|)
  {
    ShapeOf(env, types, nodes, order, k);
  }

  lemma {:induction false} KnownStaysKnown(env: Env, types: Types, nodes: seq<Node>, order: seq<nat>, n: nat,
                                           name: string)
    requires AllEnums(nodes, order) && n <= |order| && name in types
    ensures name in Generated(env, types, nodes, order, n)
    decreases n
  {
    if n > 0 {
      KnownStaysKnown(env, types, nodes, order, n - 1, name);
    }
  }

  lemma {:induction false} WidestBounded(env: Env, types: Types, kinds: seq<Kind>)
    requires forall k :: 0 <= k < |kinds| ==>
               PayloadShape(env, types, kinds[k]).Some?
               && Size(env.target, PayloadShape(env, types, kinds[k]).value) <= 8 * U32_MAX
    ensures WidestSize(env, types, kinds).Some? && WidestSize(env, types, kinds).value <= 8 * U32_MAX
    decreases |kinds|
  {
    if kinds != [] {
      var n := |kinds| - 1;
      assert forall k :: 0 <= k < n ==> kinds[..n][k] == kinds[k];
      WidestBounded(env, types, kinds[..n]);
    }
  }

  // An enum's position can be laid out in full on its turn if nothing there is the enum itself,
  // unplaceable or oversized.
  lemma {:induction false} FirstIsLaidOut(env: Env, types: Types, nodes: seq<Node>, order: seq<nat>, first: seq<nat>,
                                          rest: seq<nat>, k: nat, p: nat)
    requires IsOrder(nodes, order, first, rest) && k < |first|
    requires InlineColumn(env, types, nodes, order, k, p)
    ensures LaidOut(env, Generated(env, types, nodes, order, k), Column(nodes[order[k]].variants, p))
  {
    var variants := nodes[order[k]].variants;
    var column := Column(variants, p);
    var before := Generated(env, types, nodes, order, k);
    forall c | 0 <= c < |column|
      ensures PayloadShape(env, before, column[c]).Some?
      ensures Size(env.target, PayloadShape(env, before, column[c]).value) <= 8 * U32_MAX
    {
      var v := ColumnOnly(variants, p, c);
      FirstIsSettled(nodes, order, first, rest, k, v, p);
      SettledShape(env, types, nodes, order, k, column[c]);
      PlaceableHasShape(env, types, nodes, order, first, rest, column[c]);
    }
    WidestBounded(env, before, column);
  }

  // At position `p` of the `k`th enum: not the enum itself, nothing unplaceable, nothing wider
  // than LLVM's longest array.
  ghost predicate InlineColumn(env: Env, types: Types, nodes: seq<Node>, order: seq<nat>, k: nat, p: nat)
    requires AllEnums(nodes, order) && k < |order|
  {
    var column := Column(nodes[order[k]].variants, p);
    var final := Generated(env, types, nodes, order, |order|);
    forall c :: 0 <= c < |column| ==>
      && column[c] != Named(nodes[order[k]].name) && Placeable(env, types, nodes, column[c])
      && (PayloadShape(env, final, column[c]).Some? ==>
            Size(env.target, PayloadShape(env, final, column[c]).value) <= 8 * U32_MAX)
  }

  lemma {:induction false} NamedEnum(nodes: seq<Node>, name: string) returns (i: nat)
    requires name in Names(nodes)
    ensures IsEnum(nodes, i) && nodes[i].name == name
  {
    i :| i < |nodes| && nodes[i].Enum? && nodes[i].name == name;
  }

  /** Where an enum stands in the order. */
  lemma {:induction false} TurnOf(nodes: seq<Node>, order: seq<nat>, first: seq<nat>, rest: seq<nat>, name: string)
    returns (m: nat)
    requires IsOrder(nodes, order, first, rest) && name in Names(nodes)
    ensures m < |order| && IsEnum(nodes, order[m]) && nodes[order[m]].name == name
  {
    var i := NamedEnum(nodes, name);
    PermutationOfEnums(nodes, first, rest);
    assert i in order;
    m :| m < |order| && order[m] == i;
  }

  lemma {:induction false} PlaceableHasShape(env: Env, types: Types, nodes: seq<Node>, order: seq<nat>,
                                             first: seq<nat>, rest: seq<nat>, kind: Kind)
    requires IsOrder(nodes, order, first, rest) && Placeable(env, types, nodes, kind)
    ensures PayloadShape(env, Generated(env, types, nodes, order, |order|), kind).Some?
  {
    if NestedUserEnum(env, kind).Some? {
      if kind.name in Names(nodes) {
        var m := TurnOf(nodes, order, first, rest, kind.name);
        EveryEnumGenerated(env, types, nodes, order, m);
      } else {
        KnownStaysKnown(env, types, nodes, order, |order|, kind.name);
      }
    }
  }

  lemma {:induction false} InlinePayloadFits(env: Env, types: Types, nodes: seq<Node>, order: seq<nat>, k: nat,
                                             v: nat, p: nat)
    requires DistinctNames(nodes) && AllEnums(nodes, order) && Distinct(order) && k < |order|
    requires HasPayload(nodes, order[k], v, p)
    requires SettledBy(nodes, order, k, nodes[order[k]].variants[v].data[p])
    requires PayloadShape(env, Generated(env, types, nodes, order, |order|), nodes[order[k]].variants[v].data[p]).Some?
    requires LaidOut(env, Generated(env, types, nodes, order, k), Column(nodes[order[k]].variants, p))
    ensures StoredInline(env, Generated(env, types, nodes, order, |order|), nodes[order[k]].name, p,
                         nodes[order[k]].variants[v].data[p])
  {
    SettledPayloadFits(env, types, nodes, order, k, v, p);
    NestedFits(env, Generated(env, types, nodes, order, |order|), nodes[order[k]].name, p,
               nodes[order[k]].variants[v].data[p]);
  }

  /** The payload fits its slot, and if it is a nested enum `slot_fits` says so. */
  ghost predicate StoredInline(env: Env, types: Types, enumName: string, p: nat, kind: Kind) {
    && PayloadFits(env, types, enumName, p, kind)
    && (NestedUserEnum(env, kind).Some? ==> SlotFits(env, types, enumName, p, kind.name))
  }

  // Of an enum that reaches no cycle and does not embed itself at a position,
  // every payload there fits its slot, and a nested enum is stored inline.
  lemma {:induction false} AcyclicPayloadsFit(env: Env, types: Types, nodes: seq<Node>, order: seq<nat>,
                                              first: seq<nat>, rest: seq<nat>, k: nat, v: nat, p: nat)
    requires IsOrder(nodes, order, first, rest) && k < |first| && HasPayload(nodes, order[k], v, p)
    requires InlineColumn(env, types, nodes, order, k, p)
    ensures StoredInline(env, Generated(env, types, nodes, order, |order|), nodes[order[k]].name, p,
                         nodes[order[k]].variants[v].data[p])
  {
    ColumnInline(env, types, nodes, order, k, v, p);
    PlaceableHasShape(env, types, nodes, order, first, rest, nodes[order[k]].variants[v].data[p]);
    FirstIsSettled(nodes, order, first, rest, k, v, p);
    FirstIsLaidOut(env, types, nodes, order, first, rest, k, p);
    InlinePayloadFits(env, types, nodes, order, k, v, p);
  }

  lemma {:induction false} ColumnInline(env: Env, types: Types, nodes: seq<Node>, order: seq<nat>, k: nat, v: nat,
                                        p: nat)
    requires AllEnums(nodes, order) && k < |order| && HasPayload(nodes, order[k], v, p)
    requires InlineColumn(env, types, nodes, order, k, p)
    ensures var kind := nodes[order[k]].variants[v].data[p];
            kind != Named(nodes[order[k]].name) && Placeable(env, types, nodes, kind)
  {
    var c := ColumnHas(nodes[order[k]].variants, v, p);
  }

  /** `slot_fits` is the payload fitting, for a nested enum that has a shape. */
  lemma {:induction false} NestedFits(env: Env, types: Types, enumName: string, p: nat, kind: Kind)
    requires NestedUserEnum(env, kind).Some? ==> kind.name in types
    ensures NestedUserEnum(env, kind).Some? ==>
              (PayloadFits(env, types, enumName, p, kind) <==> SlotFits(env, types, enumName, p, kind.name))
  {
  }

  // ----------------------------------------------------------------- recursive enums

  lemma {:induction false} EndIncludes(target: Target, fields: seq<Shape>, offset: nat, f: nat)
    requires f < |fields|
    ensures End(target, fields, offset) >= offset + Size(target, fields[f])
    decreases |fields|
  {
    EndGrows(target, fields[1..], RoundUp(offset, Alignment(target, fields[0])) + Size(target, fields[0]));
    if f > 0 {
      EndIncludes(target, fields[1..], RoundUp(offset, Alignment(target, fields[0])) + Size(target, fields[0]), f - 1);
    }
  }

  lemma {:induction false} EndGrows(target: Target, fields: seq<Shape>, offset: nat)
    ensures End(target, fields, offset) >= offset
    decreases |fields|
  {
    if fields != [] {
      EndGrows(target, fields[1..], RoundUp(offset, Alignment(target, fields[0])) + Size(target, fields[0]));
    }
  }

  /** A discriminant and a slot of eight bytes or more do not fit a pointer. */
  lemma {:induction false} StructIsWide(target: Target, slots: seq<Shape>, p: nat)
    requires p < |slots| && Size(target, slots[p]) >= 8
    ensures Size(target, Struct([I32] + slots)) > 8
  {
    var fields := [I32] + slots;
    assert fields[1..] == slots;
    EndIncludes(target, slots, RoundUp(0, 4) + 4, p);
    assert End(target, fields, 0) >= 12;
  }

  lemma {:induction false} NestedSlotIsWide(env: Env, types: Types, kinds: seq<Kind>)
    requires HasNested(env, kinds)
    ensures Size(env.target, SlotFor(env, types, kinds)) >= 8
  {
  }

  /** A struct with a discriminant and a slot of a nested enum is wider than a pointer. */
  lemma {:induction false} NestedIsWide(env: Env, types: Types, variants: seq<Variant>, v: nat, p: nat)
    requires v < |variants| && p < |variants[v].data| && NestedUserEnum(env, variants[v].data[p]).Some?
    ensures Size(env.target, EnumShape(env, types, variants)) > 8
  {
    var c := ColumnHas(variants, v, p);
    NestedSlotIsWide(env, types, Column(variants, p));
    SlotAt(env, types, variants, FieldCount(variants), p);
    StructIsWide(env.target, Slots(env, types, variants, FieldCount(variants)), p);
  }

  /** The payload's enum `order[m]` is generated at or after the turn of the enum that carries it. */
  ghost predicate EmbedsLater(nodes: seq<Node>, order: seq<nat>, k: nat, v: nat, p: nat, m: nat) {
    && k <= m < |order| && HasPayload(nodes, order[k], v, p) && IsEnum(nodes, order[m])
    && nodes[order[k]].variants[v].data[p] == Named(nodes[order[m]].name)
  }

  lemma {:induction false} LaterIsUnplaced(env: Env, types: Types, nodes: seq<Node>, order: seq<nat>, k: nat, v: nat,
                                           p: nat, m: nat)
    requires DistinctNames(nodes) && AllEnums(nodes, order) && Distinct(order) && types.Keys !! Names(nodes)
    requires EmbedsLater(nodes, order, k, v, p, m) && NestedUserEnum(env, nodes[order[k]].variants[v].data[p]).Some?
    ensures var before, column := Generated(env, types, nodes, order, k), Column(nodes[order[k]].variants, p);
            SlotFor(env, before, column) == Ptr
  {
    var name := nodes[order[m]].name;
    assert name in Names(nodes);
    LaterKeeps(env, types, nodes, order, 0, k, name);
    var c := ColumnHas(nodes[order[k]].variants, v, p);
    UnplacedMeansPointer(env, Generated(env, types, nodes, order, k), Column(nodes[order[k]].variants, p), c);
  }

  /** A nested enum without a shape makes the slot a pointer. */
  lemma {:induction false} UnplacedMeansPointer(env: Env, types: Types, kinds: seq<Kind>, c: nat)
    requires c < |kinds| && NestedUserEnum(env, kinds[c]).Some? && PayloadShape(env, types, kinds[c]).None?
    ensures SlotFor(env, types, kinds) == Ptr
  {
    if WidestSize(env, types, kinds).Some? {
      WidestCovers(env, types, kinds, c);
    }
  }

  /** Where an enum carries another. */
  lemma {:induction false} CarriedAt(nodes: seq<Node>, i: nat, j: nat) returns (w: nat, q: nat)
    requires (i, j) in Embedding(nodes)
    ensures HasPayload(nodes, i, w, q) && IsEnum(nodes, j)
    ensures nodes[i].variants[w].data[q] == Named(nodes[j].name) && nodes[j].name in Names(nodes)
  {
    assert Carries(nodes[i], nodes[j].name);
    w, q :| w < |nodes[i].variants| && q < |nodes[i].variants[w].data|
      && nodes[i].variants[w].data[q] == Named(nodes[j].name);
  }

  lemma {:induction false} CyclicEmbeds(nodes: seq<Node>, j: nat) returns (w: nat, q: nat)
    requires ReachesCycle(Embedding(nodes), j)
    ensures HasPayload(nodes, j, w, q) && nodes[j].variants[w].data[q].Named?
    ensures nodes[j].variants[w].data[q].name in Names(nodes)
  {
    var next := CycleHasStep(Embedding(nodes), j);
    w, q := CarriedAt(nodes, j, next);
  }

  /** An enum that is held back, or embeds itself, embeds some enum. */
  lemma {:induction false} LaterEmbeds(nodes: seq<Node>, order: seq<nat>, first: seq<nat>, rest: seq<nat>, k: nat,
                                       v: nat, p: nat, m: nat)
    returns (w: nat, q: nat)
    requires IsOrder(nodes, order, first, rest) && EmbedsLater(nodes, order, k, v, p, m)
    ensures HasPayload(nodes, order[m], w, q) && nodes[order[m]].variants[w].data[q].Named?
    ensures nodes[order[m]].variants[w].data[q].name in Names(nodes)
  {
    if m == k {
      w, q := v, p;
      assert nodes[order[m]].name in Names(nodes);
    } else {
      LaterIsLeftover(nodes, order, first, rest, k, v, p, m);
      w, q := CyclicEmbeds(nodes, order[m]);
    }
  }

  lemma {:induction false} LaterIsLeftover(nodes: seq<Node>, order: seq<nat>, first: seq<nat>, rest: seq<nat>, k: nat,
                                           v: nat, p: nat, m: nat)
    requires IsOrder(nodes, order, first, rest) && EmbedsLater(nodes, order, k, v, p, m) && k < m
    ensures ReachesCycle(Embedding(nodes), order[m])
  {
    assert nodes[order[k]].name != nodes[order[m]].name;
    EmbedsNamed(nodes, order[k], order[m], v, p);
    if k < |first| {
      FirstEmbedsEarlier(nodes, order, first, rest, k, m);
    }
    assert order[m] in rest;
  }

  // An enum not generated before the one that embeds it, itself included, is never stored inline
  // there: it is boxed.
  lemma {:induction false} RecursivePayloadIsBoxed(env: Env, types: Types, nodes: seq<Node>, order: seq<nat>,
                                                   first: seq<nat>, rest: seq<nat>, k: nat, v: nat, p: nat, m: nat)
    requires IsOrder(nodes, order, first, rest) && EmbedsLater(nodes, order, k, v, p, m)
    requires types.Keys !! Names(nodes)
    requires Names(nodes) <= env.declared && "optional" !in Names(nodes) && "result" !in Names(nodes)
    ensures !SlotFits(env, Generated(env, types, nodes, order, |order|), nodes[order[k]].name, p, nodes[order[m]].name)
  {
    assert nodes[order[m]].name in Names(nodes);
    LaterIsUnplaced(env, types, nodes, order, k, v, p, m);
    SlotOf(env, types, nodes, order, k, v, p);
    var w, q := LaterEmbeds(nodes, order, first, rest, k, v, p, m);
    ShapeOf(env, types, nodes, order, m);
    NestedIsWide(env, Generated(env, types, nodes, order, m), nodes[order[m]].variants, w, q);
  }
}
