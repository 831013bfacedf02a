// `enum_generation_order` of `mux-compiler/src/codegen/classes.rs`: enums in an order that
// tolerates cycles of embedding.
module EnumOrder {
  import opened Collections
  import opened Walks

  /** A payload type as written; everything the runtime boxes is `Boxed`. */
  datatype Kind =
    | Int
    | Char
    | Byte
    | Float
    | Bool
    | Boxed
    | Named(name: string)
    | Void
    | Auto

  /** A variant and the types of its payload, none for a bare variant. */
  datatype Variant = Variant(name: string, data: seq<Kind>)

  datatype Node = Enum(name: string, variants: seq<Variant>) | OtherNode

  predicate IsEnum(nodes: seq<Node>, i: nat) {
    i < |nodes| && nodes[i].Enum?
  }

  ghost predicate DistinctNames(nodes: seq<Node>) {
    forall i, j :: 0 <= i < j < |nodes| && nodes[i].Enum? && nodes[j].Enum? ==> nodes[i].name != nodes[j].name
  }

  function Names(nodes: seq<Node>): set<string> {
    set i | 0 <= i < |nodes| && nodes[i].Enum? :: nodes[i].name
  }

  /** `embedded_enum_deps`: the enums among `names` that a variant carries, other than the enum itself. */
  function EmbeddedEnumDeps(node: Node, names: set<string>): set<string>
    requires node.Enum?
  {
    set v, k | 0 <= v < |node.variants| && 0 <= k < |node.variants[v].data| && node.variants[v].data[k].Named?
                 && node.variants[v].data[k].name != node.name && node.variants[v].data[k].name in names
              :: node.variants[v].data[k].name
  }

  /** `enum_ready` */
  predicate EnumReady(node: Node, names: set<string>, generated: set<string>) {
    node.Enum? && node.name !in generated && EmbeddedEnumDeps(node, names) <= generated
  }

  /** Some payload of the enum is of the named type. */
  ghost predicate Carries(node: Node, name: string) {
    && node.Enum?
    && exists v, k ::
         0 <= v < |node.variants| && 0 <= k < |node.variants[v].data| && node.variants[v].data[k] == Named(name)
  }

  /** Which enum carries which other enum. */
  ghost function Embedding(nodes: seq<Node>): Graph<nat> {
    set i, j | 0 <= i < |nodes| && 0 <= j < |nodes| && i != j && nodes[j].Enum? && Carries(nodes[i], nodes[j].name)
            :: (i, j)
  }

  /** The dependencies are the payloads that name another enum. */
  lemma {:induction false} DepsAreCarried(nodes: seq<Node>, i: nat, name: string)
    requires IsEnum(nodes, i)
    ensures name in EmbeddedEnumDeps(nodes[i], Names(nodes)) <==>
            name != nodes[i].name && name in Names(nodes) && Carries(nodes[i], name)
  {
    if Carries(nodes[i], name) {
      var v, k :| 0 <= v < |nodes[i].variants| && 0 <= k < |nodes[i].variants[v].data|
        && nodes[i].variants[v].data[k] == Named(name);
      assert nodes[i].variants[v].data[k].Named?;
    }
  }

  /** The indices of the enums, in source order. */
  function EnumIndices(nodes: seq<Node>): seq<nat> {
    if nodes == [] then []
    else
      var n := |nodes| - 1;
      EnumIndices(nodes[..n]) + if nodes[n].Enum? then [n] else []
  }

  ghost predicate Increasing(order: seq<nat>) {
    forall a, b :: 0 <= a < b < |order| ==> order[a] < order[b]
  }

  lemma {:induction false} EnumIndicesAreEnums(nodes: seq<Node>)
    ensures forall i: nat :: i in EnumIndices(nodes) <==> IsEnum(nodes, i)
    ensures Increasing(EnumIndices(nodes))
    decreases |nodes|
  {
    if nodes != [] {
      var n := |nodes| - 1;
      EnumIndicesAreEnums(nodes[..n]);
      assert forall a :: 0 <= a < |EnumIndices(nodes[..n])| ==> EnumIndices(nodes[..n])[a] in EnumIndices(nodes[..n]);
    }
  }

  // ----------------------------------------------------------------- the method

  /** The listed enums, distinct and with what they embed first; `generated` holds their names. */
  ghost predicate Emitted(nodes: seq<Node>, order: seq<nat>, generated: set<string>) {
    && Distinct(order) && SuccessorsFirst(Embedding(nodes), order)
    && (forall k :: 0 <= k < |order| ==> IsEnum(nodes, order[k]))
    && (forall i: nat :: IsEnum(nodes, i) ==> (nodes[i].name in generated <==> i in order))
  }

  lemma {:induction false} EmbeddingOf(nodes: seq<Node>, i: nat, j: nat)
    requires DistinctNames(nodes)
    ensures (i, j) in Embedding(nodes) <==>
            IsEnum(nodes, i) && IsEnum(nodes, j) && nodes[j].name in EmbeddedEnumDeps(nodes[i], Names(nodes))
  {
    if IsEnum(nodes, i) && IsEnum(nodes, j) {
      DepsAreCarried(nodes, i, nodes[j].name);
      assert nodes[j].name in Names(nodes);
    }
  }

  /** An enum is ready exactly if it is not listed yet and all it embeds is. */
  lemma {:induction false} ReadyExactly(nodes: seq<Node>, order: seq<nat>, generated: set<string>, i: nat)
    requires DistinctNames(nodes) && Emitted(nodes, order, generated) && IsEnum(nodes, i)
    ensures EnumReady(nodes[i], Names(nodes), generated) <==>
            i !in order && forall j :: (i, j) in Embedding(nodes) ==> j in order
  {
    forall j: nat ensures (i, j) in Embedding(nodes) <==>
        IsEnum(nodes, j) && nodes[j].name in EmbeddedEnumDeps(nodes[i], Names(nodes)) {
      EmbeddingOf(nodes, i, j);
    }
    if !EnumReady(nodes[i], Names(nodes), generated) && i !in order {
      var next := WaitsFor(nodes, order, generated, i);
    }
  }

  /** Pushing an enum whose embedded enums are all listed. */
  lemma {:induction false} PushReady(nodes: seq<Node>, order: seq<nat>, generated: set<string>, idx: nat)
    requires DistinctNames(nodes) && Emitted(nodes, order, generated) && IsEnum(nodes, idx)
    requires EnumReady(nodes[idx], Names(nodes), generated)
    ensures Emitted(nodes, order + [idx], generated + {nodes[idx].name})
  {
    var more := order + [idx];
    assert SuccessorsFirst(Embedding(nodes), more) by {
      forall k, next | 0 <= k < |more| && (more[k], next) in Embedding(nodes) ensures next in more[..k] {
        EmbeddingOf(nodes, more[k], next);
        if k < |order| {
          assert more[..k] == order[..k];
        } else {
          assert more[..k] == order;
        }
      }
    }
    assert idx !in order;
  }

  /** The members of the list that are chosen. */
  function Select(indices: seq<nat>, chosen: set<nat>): seq<nat> {
    if indices == [] then []
    else
      var n := |indices| - 1;
      Select(indices[..n], chosen) + if indices[n] in chosen then [indices[n]] else []
  }

  lemma {:induction false} SelectHas(indices: seq<nat>, chosen: set<nat>, i: nat)
    ensures i in Select(indices, chosen) <==> i in indices && i in chosen
    decreases |indices|
  {
    if indices != [] {
      var n := |indices| - 1;
      SelectHas(indices[..n], chosen, i);
      assert indices == indices[..n] + [indices[n]];
    }
  }

  lemma {:induction false} SelectIncreases(indices: seq<nat>, chosen: set<nat>)
    requires Increasing(indices)
    ensures Increasing(Select(indices, chosen))
    decreases |indices|
  {
    if indices != [] {
      var n := |indices| - 1;
      var before := Select(indices[..n], chosen);
      SelectIncreases(indices[..n], chosen);
      if before != [] {
        SelectHas(indices[..n], chosen, before[|before| - 1]);
      }
    }
  }

  lemma {:induction false} SelectIs(indices: seq<nat>, chosen: set<nat>)
    requires Increasing(indices)
    ensures Increasing(Select(indices, chosen))
    ensures forall i: nat :: i in Select(indices, chosen) <==> i in indices && i in chosen
  {
    SelectIncreases(indices, chosen);
    forall i: nat ensures i in Select(indices, chosen) <==> i in indices && i in chosen {
      SelectHas(indices, chosen, i);
    }
  }

  function ReadySet(nodes: seq<Node>, generated: set<string>): set<nat> {
    set i | 0 <= i < |nodes| && EnumReady(nodes[i], Names(nodes), generated)
  }

  function NotGenerated(nodes: seq<Node>, generated: set<string>): set<nat> {
    set i | 0 <= i < |nodes| && nodes[i].Enum? && nodes[i].name !in generated
  }

  // ---------------------------------------------------------------------- rounds

  /** All rounds one after another. */
  ghost function Flat(rounds: seq<seq<nat>>): seq<nat> {
    if rounds == [] then [] else Flat(rounds[..|rounds| - 1]) + rounds[|rounds| - 1]
  }

  /** The round holds, in source order, exactly the enums whose turn it is after those listed. */
  ghost predicate IsRound(nodes: seq<Node>, listed: seq<nat>, round: seq<nat>) {
    && round != [] && Increasing(round)
    && forall i: nat :: i in round <==>
         IsEnum(nodes, i) && i !in listed && forall j :: (i, j) in Embedding(nodes) ==> j in listed
  }

  ghost predicate AreRounds(nodes: seq<Node>, rounds: seq<seq<nat>>) {
    forall r {:trigger rounds[r]} :: 0 <= r < |rounds| ==> IsRound(nodes, Flat(rounds[..r]), rounds[r])
  }

  lemma {:induction false} OneMoreRound(nodes: seq<Node>, rounds: seq<seq<nat>>, round: seq<nat>)
    requires AreRounds(nodes, rounds) && IsRound(nodes, Flat(rounds), round)
    ensures AreRounds(nodes, rounds + [round]) && Flat(rounds + [round]) == Flat(rounds) + round
  {
    var more := rounds + [round];
    assert more[..|rounds|] == rounds;
    forall r | 0 <= r < |more| ensures IsRound(nodes, Flat(more[..r]), more[r]) {
      if r < |rounds| {
        assert more[..r] == rounds[..r] && more[r] == rounds[r];
      }
    }
  }

  /** What is ready makes up the next round. */
  lemma {:induction false} ReadyIsRound(nodes: seq<Node>, order: seq<nat>, generated: set<string>, ready: seq<nat>)
    requires DistinctNames(nodes) && Emitted(nodes, order, generated) && ready != [] && Increasing(ready)
    requires forall i: nat :: i in ready <==> IsEnum(nodes, i) && EnumReady(nodes[i], Names(nodes), generated)
    ensures IsRound(nodes, order, ready)
  {
    forall i: nat | IsEnum(nodes, i)
      ensures EnumReady(nodes[i], Names(nodes), generated) <==>
              i !in order && forall j :: (i, j) in Embedding(nodes) ==> j in order
    {
      ReadyExactly(nodes, order, generated, i);
    }
  }

  lemma {:induction false} LastIsGreatest(list: seq<nat>, i: nat)
    requires Increasing(list) && list != []
    ensures i in list ==> i <= list[|list| - 1]
    ensures i in list[..|list| - 1] <==> i in list && i != list[|list| - 1]
  {
    var n := |list| - 1;
    assert list == list[..n] + [list[n]];
  }

  /** Increasing lists with the same members are the same. */
  lemma {:induction false} IncreasingUnique(left: seq<nat>, right: seq<nat>)
    requires Increasing(left) && Increasing(right) && forall i: nat :: i in left <==> i in right
    ensures left == right
    decreases |left|
  {
    if left != [] && right != [] {
      var m, n := |left| - 1, |right| - 1;
      var greatest := left[m];
      LastIsGreatest(left, right[n]);
      LastIsGreatest(right, greatest);
      assert greatest in right && right[n] in left;
      forall i: nat ensures i in left[..m] <==> i in right[..n] {
        LastIsGreatest(left, i);
        LastIsGreatest(right, i);
      }
      IncreasingUnique(left[..m], right[..n]);
      assert left == left[..m] + [greatest] && right == right[..n] + [greatest];
    } else {
      SameEmptiness(left, right);
    }
  }

  lemma {:induction false} SameEmptiness(left: seq<nat>, right: seq<nat>)
    requires forall i: nat :: i in left <==> i in right
    ensures left == [] <==> right == []
  {
    if left != [] {
      assert left[0] in right;
    }
    if right != [] {
      assert right[0] in left;
    }
  }

  lemma {:induction false} FirstRounds(nodes: seq<Node>, rounds: seq<seq<nat>>, n: nat)
    requires AreRounds(nodes, rounds) && n <= |rounds|
    ensures AreRounds(nodes, rounds[..n])
  {
    forall r | 0 <= r < n ensures IsRound(nodes, Flat(rounds[..n][..r]), rounds[..n][r]) {
      assert rounds[..n][..r] == rounds[..r] && rounds[..n][r] == rounds[r];
    }
  }

  lemma {:induction false} NextRoundUnique(nodes: seq<Node>, listed: seq<nat>, left: seq<nat>, right: seq<nat>)
    requires IsRound(nodes, listed, left) && IsRound(nodes, listed, right)
    ensures left == right
  {
    forall i: nat ensures i in left <==> i in right {
    }
    IncreasingUnique(left, right);
  }

  /** There is one way to list the enums in such rounds until none is left whose turn it is. */
  lemma {:induction false} RoundsUnique(nodes: seq<Node>, left: seq<seq<nat>>, right: seq<seq<nat>>)
    requires AreRounds(nodes, left) && AreRounds(nodes, right)
    ensures left <= right || right <= left
    decreases |left|
  {
    if left != [] {
      var n := |left| - 1;
      FirstRounds(nodes, left, n);
      RoundsUnique(nodes, left[..n], right);
      if left[..n] < right {
        assert left[..n] == right[..n];
        NextRoundUnique(nodes, Flat(left[..n]), left[n], right[n]);
        OneLonger(left, right, n);
      }
    }
  }

  lemma {:induction false} OneLonger(left: seq<seq<nat>>, right: seq<seq<nat>>, n: nat)
    requires n + 1 == |left| && n < |right| && left[..n] == right[..n] && left[n] == right[n]
    ensures left <= right
  {
    assert left == left[..n] + [left[n]] && right[..n + 1] == right[..n] + [right[n]];
  }

  /** One round: everything ready is listed, in source order. */
  method EmitReady(nodes: seq<Node>, ready: seq<nat>, order0: seq<nat>, generated0: set<string>)
    returns (order: seq<nat>, generated: set<string>)
    requires DistinctNames(nodes) && Emitted(nodes, order0, generated0) && Increasing(ready)
    requires forall k :: 0 <= k < |ready| ==>
               IsEnum(nodes, ready[k]) && EnumReady(nodes[ready[k]], Names(nodes), generated0)
    ensures order == order0 + ready && Emitted(nodes, order, generated) && generated0 <= generated
  {
    order, generated := order0, generated0;
    for k := 0 to |ready|
      invariant order == order0 + ready[..k]
      invariant Emitted(nodes, order, generated) && generated0 <= generated
    {
      var idx := ready[k];
      PushReady(nodes, order, generated, idx);
      order := order + [idx];
      generated := generated + {nodes[idx].name};
    }
    assert ready[..|ready|] == ready;
  }

  /** The enums that reach a cycle, in source order. */
  ghost predicate IsLeftover(nodes: seq<Node>, rest: seq<nat>) {
    && Increasing(rest)
    && forall i: nat :: i in rest <==> IsEnum(nodes, i) && ReachesCycle(Embedding(nodes), i)
  }

  /** The enums that do not, each once and after all it embeds. */
  ghost predicate IsLaidOutFirst(nodes: seq<Node>, first: seq<nat>) {
    && Distinct(first) && SuccessorsFirst(Embedding(nodes), first)
    && forall i: nat :: i in first <==> IsEnum(nodes, i) && !ReachesCycle(Embedding(nodes), i)
  }

  /** The enums that were never listed. */
  function Unlisted(nodes: seq<Node>, order: seq<nat>): set<nat> {
    set i | 0 <= i < |nodes| && nodes[i].Enum? && i !in order
  }

  /** If none of them is ready, each embeds another of them. */
  lemma {:induction false} UnlistedAreStuck(nodes: seq<Node>, order: seq<nat>, generated: set<string>)
    requires DistinctNames(nodes) && Emitted(nodes, order, generated)
    requires forall i: nat :: IsEnum(nodes, i) ==> !EnumReady(nodes[i], Names(nodes), generated)
    ensures Stuck(Embedding(nodes), Unlisted(nodes, order))
  {
    forall i | i in Unlisted(nodes, order)
      ensures exists next :: next in Unlisted(nodes, order) && (i, next) in Embedding(nodes)
    {
      var next := WaitsFor(nodes, order, generated, i);
    }
  }

  /** An enum that is not ready embeds one that is not listed. */
  lemma {:induction false} WaitsFor(nodes: seq<Node>, order: seq<nat>, generated: set<string>, i: nat)
    returns (next: nat)
    requires DistinctNames(nodes) && Emitted(nodes, order, generated)
    requires IsEnum(nodes, i) && !EnumReady(nodes[i], Names(nodes), generated) && i !in order
    ensures next in Unlisted(nodes, order) && (i, next) in Embedding(nodes)
  {
    var name :| name in EmbeddedEnumDeps(nodes[i], Names(nodes)) && name !in generated;
    next :| next < |nodes| && nodes[next].Enum? && nodes[next].name == name;
    EmbeddingOf(nodes, i, next);
  }

  /** When nothing more is ready, the list holds exactly the enums that reach no cycle. */
  lemma {:induction false} Fixpoint(nodes: seq<Node>, order: seq<nat>, generated: set<string>)
    requires DistinctNames(nodes) && Emitted(nodes, order, generated)
    requires forall i: nat :: IsEnum(nodes, i) ==> !EnumReady(nodes[i], Names(nodes), generated)
    ensures forall i: nat :: i in order <==> IsEnum(nodes, i) && !ReachesCycle(Embedding(nodes), i)
  {
    UnlistedAreStuck(nodes, order, generated);
    forall i: nat | IsEnum(nodes, i) ensures i in order <==> !ReachesCycle(Embedding(nodes), i) {
      if i in order {
        var k :| 0 <= k < |order| && order[k] == i;
        ListedAreAcyclic(Embedding(nodes), order, k);
      } else {
        StuckReachesCycle(Embedding(nodes), Unlisted(nodes, order), i);
      }
    }
  }

  lemma {:induction false} ReadyEnums(nodes: seq<Node>, generated: set<string>)
    ensures var ready := Select(EnumIndices(nodes), ReadySet(nodes, generated));
            && Increasing(ready)
            && (forall i: nat :: i in ready <==> IsEnum(nodes, i) && EnumReady(nodes[i], Names(nodes), generated))
            && forall k :: 0 <= k < |ready| ==>
                  IsEnum(nodes, ready[k]) && EnumReady(nodes[ready[k]], Names(nodes), generated)
  {
    EnumIndicesAreEnums(nodes);
    SelectIs(EnumIndices(nodes), ReadySet(nodes, generated));
    var ready := Select(EnumIndices(nodes), ReadySet(nodes, generated));
    assert forall k :: 0 <= k < |ready| ==> ready[k] in ready;
  }

  /** The loop that lists whatever is ready until nothing is. */
  method EmitAll(nodes: seq<Node>)
    returns (order: seq<nat>, generated: set<string>, ghost rounds: seq<seq<nat>>)
    requires DistinctNames(nodes)
    ensures Emitted(nodes, order, generated) && IsLaidOutFirst(nodes, order)
    ensures AreRounds(nodes, rounds) && order == Flat(rounds)
  {
    var indices := EnumIndices(nodes);
    order, generated, rounds := [], {}, [];
    var ready := Select(indices, ReadySet(nodes, generated));
    ReadyEnums(nodes, generated);
    while ready != []
      invariant Emitted(nodes, order, generated)
      invariant AreRounds(nodes, rounds) && order == Flat(rounds)
      invariant ready == Select(indices, ReadySet(nodes, generated))
      decreases |Names(nodes) - generated|
    {
      ReadyEnums(nodes, generated);
      var name := nodes[ready[0]].name;
      ghost var before := generated;
      ReadyIsRound(nodes, order, generated, ready);
      OneMoreRound(nodes, rounds, ready);
      rounds := rounds + [ready];
      order, generated := EmitReady(nodes, ready, order, generated);
      assert ready[0] in order;
      Shrinks(Names(nodes), before, generated, name);
      ready := Select(indices, ReadySet(nodes, generated));
    }
    ReadyEnums(nodes, generated);
    Fixpoint(nodes, order, generated);
  }

  lemma {:induction false} LeftoversReachCycles(nodes: seq<Node>, order: seq<nat>, generated: set<string>)
    requires Emitted(nodes, order, generated) && IsLaidOutFirst(nodes, order)
    ensures IsLeftover(nodes, Select(EnumIndices(nodes), NotGenerated(nodes, generated)))
  {
    EnumIndicesAreEnums(nodes);
    SelectIs(EnumIndices(nodes), NotGenerated(nodes, generated));
  }

  /** The last loop: what is left is appended in source order. */
  method AppendLeftovers(nodes: seq<Node>, indices: seq<nat>, first: seq<nat>, generated: set<string>)
    returns (order: seq<nat>)
    requires forall k :: 0 <= k < |indices| ==> IsEnum(nodes, indices[k])
    ensures order == first + Select(indices, NotGenerated(nodes, generated))
  {
    order := first;
    for k := 0 to |indices|
      invariant order == first + Select(indices[..k], NotGenerated(nodes, generated))
    {
      assert indices[..k + 1][..k] == indices[..k];
      if nodes[indices[k]].name !in generated {
        order := order + [indices[k]];
      }
    }
    assert indices[..|indices|] == indices;
  }

  /** `enum_generation_order` */
  method EnumGenerationOrder(nodes: seq<Node>)
    returns (order: seq<nat>, ghost first: seq<nat>, ghost rest: seq<nat>, ghost rounds: seq<seq<nat>>)
    requires DistinctNames(nodes)
    ensures AreRounds(nodes, rounds) && first == Flat(rounds)
    ensures order == first + rest && IsLaidOutFirst(nodes, first) && IsLeftover(nodes, rest)
    ensures Distinct(order) && forall i: nat :: i in order <==> IsEnum(nodes, i)
  {
    var listed, generated, inRounds := EmitAll(nodes);
    rounds := inRounds;
    var indices := EnumIndices(nodes);
    EnumIndicesAreEnums(nodes);
    LeftoversReachCycles(nodes, listed, generated);
    assert forall k :: 0 <= k < |indices| ==> indices[k] in indices;
    order := AppendLeftovers(nodes, indices, listed, generated);
    first, rest := listed, Select(indices, NotGenerated(nodes, generated));
    PermutationOfEnums(nodes, first, rest);
  }

  /** The two parts together are every enum, once. */
  lemma {:induction false} PermutationOfEnums(nodes: seq<Node>, first: seq<nat>, rest: seq<nat>)
    requires IsLaidOutFirst(nodes, first) && IsLeftover(nodes, rest)
    ensures Distinct(first + rest) && forall i: nat :: i in first + rest <==> IsEnum(nodes, i)
  {
    assert forall k :: 0 <= k < |first| ==> first[k] in first;
    assert forall k :: 0 <= k < |rest| ==> rest[k] in rest;
  }

  /** An enum that embeds no enum but itself is not held back as a cycle: self-references are no dependencies. */
  lemma {:induction false} SelfEmbeddingIsNoCycle(nodes: seq<Node>, i: nat)
    requires DistinctNames(nodes) && IsEnum(nodes, i)
    requires forall v, k :: 0 <= v < |nodes[i].variants| && 0 <= k < |nodes[i].variants[v].data| ==>
               var kind := nodes[i].variants[v].data[k];
               kind.Named? && kind.name in Names(nodes) ==> kind.name == nodes[i].name
    ensures !ReachesCycle(Embedding(nodes), i)
  {
    forall j | 0 <= j < |nodes| && nodes[j].Enum? && j != i ensures !Carries(nodes[i], nodes[j].name) {
      assert nodes[j].name in Names(nodes) && nodes[j].name != nodes[i].name;
    }
    ListedAreAcyclic(Embedding(nodes), [i], 0);
  }
}
