/**
 What a job takes, seen two ways: node by node for its placement, and as one vector for the check of
 a whole cluster. Amounts are in canonical integer units.
 */
module Resources {
  import opened Text

  datatype Kind = CPU | Memory | Storage | Accelerator

  const NODE_KINDS := {CPU, Memory, Storage}

  /** One dimension; the name is the accelerator's type, empty for every other kind. */
  datatype Key = Key(kind: Kind, name: string)

  type Vector = map<Key, int>

  /** A dimension that is not there counts as zero. */
  function At(v: Vector, k: Key): int { if k in v then v[k] else 0 }

  function Plus(a: Vector, b: Vector): Vector { map k | k in a.Keys + b.Keys :: At(a, k) + At(b, k) }

  function Minus(a: Vector, b: Vector): Vector { map k | k in a.Keys + b.Keys :: At(a, k) - At(b, k) }

  function ScaledBy(v: Vector, n: int): Vector { map k | k in v :: v[k] * n }

  /** Whether a capacity has every dimension that is asked for. */
  predicate Within(capacity: Vector, footprint: Vector) {
    forall k :: k in footprint && footprint[k] > 0 ==> At(capacity, k) >= footprint[k]
  }

  /** A vector without some of its dimensions. */
  function Except(v: Vector, left: set<Key>): Vector { map k | k in v && k !in left :: v[k] }

  lemma PlusOneMore(a: Vector, b: Vector, left: set<Key>, k: Key)
    requires k in b && k in left
    ensures var sum := Plus(a, Except(b, left));
            Plus(a, Except(b, left - {k})) == sum[k := At(sum, k) + b[k]]
  {
    var sum, next := Plus(a, Except(b, left)), Plus(a, Except(b, left - {k}));
    assert next.Keys == sum.Keys + {k};
  }

  lemma MinusOneMore(a: Vector, b: Vector, left: set<Key>, k: Key)
    requires k in b && k in left
    ensures var sum := Minus(a, Except(b, left));
            Minus(a, Except(b, left - {k})) == sum[k := At(sum, k) - b[k]]
  {
    var sum, next := Minus(a, Except(b, left)), Minus(a, Except(b, left - {k}));
    assert next.Keys == sum.Keys + {k};
  }

  lemma NoneOrAllLeft(v: Vector)
    ensures Except(v, {}) == v && Except(v, v.Keys) == map[]
  {
  }

  lemma WithNothing(v: Vector)
    ensures Plus(v, map[]) == v && Minus(v, map[]) == v
  {
  }

  class Footprint {
    var amounts: Vector

    constructor ()
      ensures amounts == map[]
    {
      amounts := map[];
    }

    method Add(key: Key, amount: int)
      modifies this
      ensures amounts == old(amounts)[key := At(old(amounts), key) + amount]
    {
      amounts := amounts[key := At(amounts, key) + amount];
    }

    method Scale(n: int) returns (r: Footprint)
      ensures fresh(r) && r.amounts == ScaledBy(amounts, n)
    {
      r := new Footprint();
      var left := amounts.Keys;
      while left != {}
        invariant left <= amounts.Keys
        invariant r.amounts == map k | k in amounts.Keys - left :: amounts[k] * n
        invariant fresh(r)
        decreases |left|
      {
        var k :| k in left;
        r.amounts := r.amounts[k := amounts[k] * n];
        left := left - {k};
      }
      assert amounts.Keys - left == amounts.Keys;
    }

    method AddFootprint(other: Footprint)
      modifies this
      ensures amounts == Plus(old(amounts), old(other.amounts))
    {
      hide Plus, Except;
      ghost var before := amounts;
      var added := other.amounts;
      var left := added.Keys;
      NoneOrAllLeft(added);
      WithNothing(before);
      while left != {}
        invariant left <= added.Keys && amounts == Plus(before, Except(added, left))
        decreases |left|
      {
        var k :| k in left;
        PlusOneMore(before, added, left, k);
        amounts := amounts[k := At(amounts, k) + added[k]];
        left := left - {k};
      }
    }

    method Sub(other: Footprint) returns (r: Footprint)
      ensures fresh(r) && r.amounts == Minus(amounts, other.amounts)
    {
      hide Minus, Except;
      r := new Footprint();
      r.amounts := amounts;
      var left := other.amounts.Keys;
      NoneOrAllLeft(other.amounts);
      WithNothing(amounts);
      while left != {}
        invariant left <= other.amounts.Keys && r.amounts == Minus(amounts, Except(other.amounts, left))
        invariant fresh(r)
        decreases |left|
      {
        var k :| k in left;
        MinusOneMore(amounts, other.amounts, left, k);
        r.amounts := r.amounts[k := At(r.amounts, k) - other.amounts[k]];
        left := left - {k};
      }
    }
  }

  method Fits(capacity: Footprint, footprint: Footprint) returns (fits: bool)
    ensures fits == Within(capacity.amounts, footprint.amounts)
  {
    var left := footprint.amounts.Keys;
    while left != {}
      invariant left <= footprint.amounts.Keys
      invariant forall k :: k in footprint.amounts.Keys - left && footprint.amounts[k] > 0 ==>
                  At(capacity.amounts, k) >= footprint.amounts[k]
      decreases |left|
    {
      var k :| k in left;
      var need := footprint.amounts[k];
      if need > 0 && At(capacity.amounts, k) < need {
        return false;
      }
      left := left - {k};
    }
    return true;
  }

  /** Two footprints fit together exactly when the second fits in what the first leaves. */
  lemma FitsInTurn(capacity: Vector, a: Vector, b: Vector)
    requires forall k :: At(a, k) >= 0 && At(b, k) >= 0
    ensures Within(capacity, Plus(a, b)) <==> Within(capacity, a) && Within(Minus(capacity, a), b)
  {
    var both, rest := Plus(a, b), Minus(capacity, a);
    assert forall k :: At(both, k) == At(a, k) + At(b, k);
    assert forall k :: At(rest, k) == At(capacity, k) - At(a, k);
    WithinAt(capacity, both);
    WithinAt(capacity, a);
    WithinAt(rest, b);
  }

  lemma WithinAt(capacity: Vector, v: Vector)
    ensures Within(capacity, v) <==> forall k :: At(v, k) > 0 ==> At(capacity, k) >= At(v, k)
  {
  }

  // ----- jobs -----------------------------------------------------------------------------------

  datatype JobGroup = JobGroup(name: string, replicas: int, cpu: string, memory: string, storage: string,
                               acceleratorCount: int)

  datatype JobSpec = JobSpec(groups: seq<JobGroup>, numNodes: int, cpu: string, memory: string, storage: string,
                             acceleratorCount: int)

  /** A job as admission resolved it, with the accelerators it holds. */
  datatype Experiment = Experiment(job: JobSpec, acceleratorType: string, acceleratorCount: int)

  /** What a quantity's text reads as, in whole units and in thousandths. */
  datatype Quantity = Quantity(value: int, milli: int)

  type Reader = string -> Option<Quantity>

  datatype NodeShape = NodeShape(group: string, acceleratorCount: int, resources: map<Kind, int>)

  function NumNodes(j: JobSpec): int { if j.numNodes < 1 then 1 else j.numNodes }

  function Replicas(groups: seq<JobGroup>): int {
    if |groups| == 0 then 0 else Replicas(groups[..|groups| - 1]) + groups[|groups| - 1].replicas
  }

  function NodeCount(j: JobSpec): int { if |j.groups| > 0 then Replicas(j.groups) else NumNodes(j) }

  function NodeGroups(j: JobSpec): seq<JobGroup> {
    if |j.groups| > 0 then j.groups
    else [JobGroup("", NumNodes(j), j.cpu, j.memory, j.storage, j.acceleratorCount)]
  }

  method Nodes(j: JobSpec) returns (n: int)
    ensures n == Replicas(NodeGroups(j))
  {
    if |j.groups| > 0 {
      n := 0;
      for i := 0 to |j.groups|
        invariant n == Replicas(j.groups[..i])
      {
        assert j.groups[..i + 1][..i] == j.groups[..i];
        n := n + j.groups[i].replicas;
      }
      assert j.groups[..|j.groups|] == j.groups;
    } else {
      assert NodeGroups(j)[..0] == [];
      n := NumNodes(j);
    }
  }

  function Accelerators(groups: seq<JobGroup>): int {
    if |groups| == 0 then 0
    else var g := groups[|groups| - 1]; Accelerators(groups[..|groups| - 1]) + g.acceleratorCount * g.replicas
  }

  method TotalAccelerators(j: JobSpec) returns (total: int)
    ensures total == Accelerators(NodeGroups(j))
  {
    var groups := NodeGroups(j);
    total := 0;
    for i := 0 to |groups|
      invariant total == Accelerators(groups[..i])
    {
      assert groups[..i + 1][..i] == groups[..i];
      total := total + groups[i].acceleratorCount * groups[i].replicas;
    }
    assert groups[..|groups|] == groups;
  }

  // ----- one node of a group --------------------------------------------------------------------

  function Asked(g: JobGroup, kind: Kind): string {
    match kind case CPU => g.cpu case Memory => g.memory case Storage => g.storage case Accelerator => ""
  }

  /** What one node of a group asks of a kind, zero when the text cannot be read. */
  function Amount(parse: Reader, g: JobGroup, kind: Kind): int {
    match parse(Asked(g, kind))
    case None => 0
    case Some(q) => if kind == CPU then q.milli else q.value
  }

  lemma AmountIs(parse: Reader, g: JobGroup, kind: Kind)
    ensures var q := parse(Asked(g, kind));
            Amount(parse, g, kind) == if q.None? then 0 else if kind == CPU then q.value.milli else q.value.value
  {
  }

  function ResourcesOf(parse: Reader, g: JobGroup): map<Kind, int> {
    map kind | kind in NODE_KINDS && Amount(parse, g, kind) > 0 :: Amount(parse, g, kind)
  }

  method NodeResources(parse: Reader, g: JobGroup) returns (resources: map<Kind, int>)
    ensures resources == ResourcesOf(parse, g)
    ensures resources.Keys <= NODE_KINDS
    ensures var cpu := parse(g.cpu); if cpu.Some? && cpu.value.milli > 0 then CPU in resources && resources[CPU] == cpu.value.milli
                                     else CPU !in resources
    ensures var memory := parse(g.memory);
            if memory.Some? && memory.value.value > 0 then Memory in resources && resources[Memory] == memory.value.value
            else Memory !in resources
    ensures var storage := parse(g.storage);
            if storage.Some? && storage.value.value > 0 then Storage in resources && resources[Storage] == storage.value.value
            else Storage !in resources
  {
    hide Amount;
    AmountIs(parse, g, CPU);
    AmountIs(parse, g, Memory);
    AmountIs(parse, g, Storage);
    resources := map[];
    var left := NODE_KINDS;
    while left != {}
      invariant left <= NODE_KINDS
      invariant resources == map kind | kind in NODE_KINDS - left && Amount(parse, g, kind) > 0 :: Amount(parse, g, kind)
      decreases |left|
    {
      var kind :| kind in left;
      AmountIs(parse, g, kind);
      var q := parse(Asked(g, kind));
      if q.Some? {
        var value := if kind == CPU then q.value.milli else q.value.value;
        if value > 0 {
          resources := resources[kind := value];
        }
      }
      left := left - {kind};
    }
  }

  // ----- the placement view ---------------------------------------------------------------------

  function ShapeOf(parse: Reader, g: JobGroup): NodeShape {
    NodeShape(g.name, g.acceleratorCount, ResourcesOf(parse, g))
  }

  function Copies(shape: NodeShape, n: int): seq<NodeShape> { seq(if n > 0 then n else 0, i => shape) }

  function ShapesOf(parse: Reader, groups: seq<JobGroup>): seq<NodeShape> {
    if |groups| == 0 then []
    else
      var g := groups[|groups| - 1];
      ShapesOf(parse, groups[..|groups| - 1]) + Copies(ShapeOf(parse, g), g.replicas)
  }

  method NodeShapes(parse: Reader, j: JobSpec) returns (out: seq<NodeShape>)
    ensures out == ShapesOf(parse, NodeGroups(j))
  {
    var groups := NodeGroups(j);
    out := [];
    for i := 0 to |groups|
      invariant out == ShapesOf(parse, groups[..i])
    {
      var g := groups[i];
      var resources := NodeResources(parse, g);
      var replica := 0;
      ghost var before := out;
      while replica < g.replicas
        invariant 0 <= replica && (g.replicas >= 0 ==> replica <= g.replicas) && (g.replicas < 0 ==> replica == 0)
        invariant out == before + Copies(ShapeOf(parse, g), replica)
      {
        out := out + [NodeShape(g.name, g.acceleratorCount, resources)];
        replica := replica + 1;
      }
      assert groups[..i + 1][..i] == groups[..i];
    }
    assert groups[..|groups|] == groups;
  }

  /** An ungrouped job is so many nodes of its own shape, one where it names none. */
  lemma UngroupedShapes(parse: Reader, j: JobSpec)
    requires |j.groups| == 0
    ensures var shapes := ShapesOf(parse, NodeGroups(j));
            && |shapes| == (if j.numNodes < 1 then 1 else j.numNodes) == NodeCount(j)
            && forall i :: 0 <= i < |shapes| ==>
                 shapes[i] == NodeShape("", j.acceleratorCount,
                                        ResourcesOf(parse, JobGroup("", 1, j.cpu, j.memory, j.storage, j.acceleratorCount)))
  {
    var g := NodeGroups(j)[0];
    assert NodeGroups(j)[..0] == [];
    assert ResourcesOf(parse, g) == ResourcesOf(parse, JobGroup("", 1, j.cpu, j.memory, j.storage, j.acceleratorCount)) by {
      SameResources(parse, g, JobGroup("", 1, j.cpu, j.memory, j.storage, j.acceleratorCount));
    }
  }

  lemma SameResources(parse: Reader, g: JobGroup, h: JobGroup)
    requires g.cpu == h.cpu && g.memory == h.memory && g.storage == h.storage
    ensures ResourcesOf(parse, g) == ResourcesOf(parse, h)
  {
    assert forall kind :: Amount(parse, g, kind) == Amount(parse, h, kind);
  }

  // ----- the whole-job view ---------------------------------------------------------------------

  /** A node's resources as dimensions of a footprint, all but those of some kinds. */
  function Keyed(resources: map<Kind, int>, left: set<Kind>): Vector {
    map kind | kind in resources && kind !in left :: Key(kind, "") := resources[kind]
  }

  lemma KeyedOneMore(resources: map<Kind, int>, left: set<Kind>, kind: Kind)
    requires kind in resources && kind in left
    ensures Key(kind, "") !in Keyed(resources, left)
    ensures Keyed(resources, left - {kind}) == Keyed(resources, left)[Key(kind, "") := resources[kind]]
  {
    var a, b := Keyed(resources, left - {kind}), Keyed(resources, left)[Key(kind, "") := resources[kind]];
    forall k ensures (k in a <==> k in b) && (k in a ==> a[k] == b[k]) {
      assert k == Key(k.kind, k.name);
    }
  }

  function PerNode(parse: Reader, g: JobGroup): Vector { Keyed(ResourcesOf(parse, g), {}) }

  function GroupsVector(parse: Reader, groups: seq<JobGroup>): Vector {
    if |groups| == 0 then map[]
    else
      var g := groups[|groups| - 1];
      Plus(GroupsVector(parse, groups[..|groups| - 1]), ScaledBy(PerNode(parse, g), g.replicas))
  }

  function VectorOf(parse: Reader, e: Experiment): Vector {
    var v := GroupsVector(parse, NodeGroups(e.job));
    if e.acceleratorCount > 0 && e.acceleratorType != "" then
      var key := Key(Accelerator, e.acceleratorType);
      v[key := At(v, key) + e.acceleratorCount]
    else v
  }

  method PerNodeFootprint(parse: Reader, g: JobGroup) returns (fp: Footprint)
    ensures fresh(fp) && fp.amounts == PerNode(parse, g)
  {
    hide Keyed, ResourcesOf;
    fp := new Footprint();
    var resources := NodeResources(parse, g);
    var left := resources.Keys;
    NothingKeyed(resources);
    while left != {}
      invariant left <= resources.Keys && fresh(fp) && fp.amounts == Keyed(resources, left)
      decreases |left|
    {
      var kind :| kind in left;
      KeyedOneMore(resources, left, kind);
      fp.Add(Key(kind, ""), resources[kind]);
      left := left - {kind};
    }
  }

  lemma NothingKeyed(resources: map<Kind, int>)
    ensures Keyed(resources, resources.Keys) == map[]
  {
  }

  method FootprintOf(parse: Reader, e: Experiment) returns (fp: Footprint)
    ensures fresh(fp) && fp.amounts == VectorOf(parse, e)
  {
    hide Plus, ScaledBy, PerNode, NodeGroups;
    fp := new Footprint();
    var groups := NodeGroups(e.job);
    for i := 0 to |groups|
      invariant fresh(fp) && fp.amounts == GroupsVector(parse, groups[..i])
    {
      assert groups[..i + 1][..i] == groups[..i];
      var perNode := PerNodeFootprint(parse, groups[i]);
      var all := perNode.Scale(groups[i].replicas);
      fp.AddFootprint(all);
    }
    assert groups[..|groups|] == groups;
    if e.acceleratorCount > 0 && e.acceleratorType != "" {
      fp.Add(Key(Accelerator, e.acceleratorType), e.acceleratorCount);
    }
  }

  // ----- the two views agree --------------------------------------------------------------------

  /** What a shape takes of a dimension on the node it lands on. */
  function Demand(shape: NodeShape, acceleratorType: string, k: Key): int {
    if k.kind.Accelerator? then (if k.name == acceleratorType then shape.acceleratorCount else 0)
    else if k.name == "" && k.kind in shape.resources then shape.resources[k.kind]
    else 0
  }

  function Load(shapes: seq<NodeShape>, acceleratorType: string, k: Key): int {
    if |shapes| == 0 then 0
    else Load(shapes[..|shapes| - 1], acceleratorType, k) + Demand(shapes[|shapes| - 1], acceleratorType, k)
  }

  lemma {:induction false} LoadOfBoth(a: seq<NodeShape>, b: seq<NodeShape>, t: string, k: Key)
    ensures Load(a + b, t, k) == Load(a, t, k) + Load(b, t, k)
  {
    if |b| == 0 {
      assert a + b == a;
    } else {
      assert (a + b)[..|a| + |b| - 1] == a + b[..|b| - 1];
      LoadOfBoth(a, b[..|b| - 1], t, k);
    }
  }

  lemma {:induction false} LoadOfCopies(shape: NodeShape, n: int, t: string, k: Key)
    requires n >= 0
    ensures Load(Copies(shape, n), t, k) == Demand(shape, t, k) * n
  {
    if n > 0 {
      assert Copies(shape, n)[..n - 1] == Copies(shape, n - 1);
      LoadOfCopies(shape, n - 1, t, k);
    }
  }

  lemma {:induction false} GroupsAgree(parse: Reader, groups: seq<JobGroup>, t: string, k: Key)
    requires forall i :: 0 <= i < |groups| ==> groups[i].replicas >= 0
    ensures |ShapesOf(parse, groups)| == Replicas(groups)
    ensures Load(ShapesOf(parse, groups), t, k) ==
            if k.kind.Accelerator? then (if k.name == t then Accelerators(groups) else 0)
            else At(GroupsVector(parse, groups), k)
  {
    if |groups| > 0 {
      var g, before := groups[|groups| - 1], groups[..|groups| - 1];
      GroupsAgree(parse, before, t, k);
      LoadOfBoth(ShapesOf(parse, before), Copies(ShapeOf(parse, g), g.replicas), t, k);
      LoadOfCopies(ShapeOf(parse, g), g.replicas, t, k);
      PerNodeIsDemand(parse, g, t, k);
    }
  }

  lemma PerNodeIsDemand(parse: Reader, g: JobGroup, t: string, k: Key)
    ensures !k.kind.Accelerator? ==>
              At(ScaledBy(PerNode(parse, g), g.replicas), k) == Demand(ShapeOf(parse, g), t, k) * g.replicas
  {
    var v := PerNode(parse, g);
    assert k == Key(k.kind, k.name);
    assert k in v <==> k.kind in ResourcesOf(parse, g) && k.name == "";
  }

  lemma {:induction false} NoAcceleratorKey(parse: Reader, groups: seq<JobGroup>, k: Key)
    requires k.kind.Accelerator?
    ensures k !in GroupsVector(parse, groups)
  {
    hide Plus, ScaledBy, PerNode;
    if |groups| > 0 {
      var n := |groups| - 1;
      NoAcceleratorKey(parse, groups[..n], k);
      PerNodeKeys(parse, groups[n], k);
      PlusKeys(GroupsVector(parse, groups[..n]), ScaledBy(PerNode(parse, groups[n]), groups[n].replicas), k);
    }
  }

  lemma PlusKeys(a: Vector, b: Vector, k: Key)
    ensures k in Plus(a, b) <==> k in a || k in b
  {
  }

  lemma PerNodeKeys(parse: Reader, g: JobGroup, k: Key)
    requires k.kind.Accelerator?
    ensures k !in ScaledBy(PerNode(parse, g), g.replicas)
  {
    hide Amount;
  }

  predicate Sized(j: JobSpec) { forall i :: 0 <= i < |j.groups| ==> j.groups[i].replicas >= 0 }

  /** One shape per node; and dimension by dimension, what the nodes take together is what the
      whole-job footprint says. */
  lemma ViewsAgree(parse: Reader, e: Experiment, k: Key)
    requires Sized(e.job) && e.acceleratorCount == Accelerators(NodeGroups(e.job))
    ensures |ShapesOf(parse, NodeGroups(e.job))| == NodeCount(e.job)
    ensures Load(ShapesOf(parse, NodeGroups(e.job)), e.acceleratorType, Key(Accelerator, e.acceleratorType)) ==
            Accelerators(NodeGroups(e.job))
    ensures e.acceleratorType != "" && e.acceleratorCount >= 0 ==>
              Load(ShapesOf(parse, NodeGroups(e.job)), e.acceleratorType, k) == At(VectorOf(parse, e), k)
    ensures !k.kind.Accelerator? ==>
              Load(ShapesOf(parse, NodeGroups(e.job)), e.acceleratorType, k) == At(VectorOf(parse, e), k)
  {
    var groups := NodeGroups(e.job);
    assert |e.job.groups| == 0 ==> groups[..0] == [];
    GroupsAgree(parse, groups, e.acceleratorType, k);
    GroupsAgree(parse, groups, e.acceleratorType, Key(Accelerator, e.acceleratorType));
    if k.kind.Accelerator? { NoAcceleratorKey(parse, groups, k); }
  }

  // ----- placement ------------------------------------------------------------------------------

  /** What the shapes put on one node take of a dimension, and what those put on any node before it
      take. */
  function OnNode(shapes: seq<NodeShape>, node: seq<nat>, n: nat, t: string, k: Key): int
    requires |shapes| == |node|
  {
    if |shapes| == 0 then 0
    else
      var i := |shapes| - 1;
      OnNode(shapes[..i], node[..i], n, t, k) + if node[i] == n then Demand(shapes[i], t, k) else 0
  }

  function Before(shapes: seq<NodeShape>, node: seq<nat>, n: nat, t: string, k: Key): int
    requires |shapes| == |node|
  {
    if |shapes| == 0 then 0
    else
      var i := |shapes| - 1;
      Before(shapes[..i], node[..i], n, t, k) + if node[i] < n then Demand(shapes[i], t, k) else 0
  }

  lemma {:induction false} OneNodeMore(shapes: seq<NodeShape>, node: seq<nat>, n: nat, t: string, k: Key)
    requires |shapes| == |node|
    ensures Before(shapes, node, n + 1, t, k) == Before(shapes, node, n, t, k) + OnNode(shapes, node, n, t, k)
  {
    if |shapes| > 0 { OneNodeMore(shapes[..|shapes| - 1], node[..|node| - 1], n, t, k); }
  }

  lemma {:induction false} BeforeAll(shapes: seq<NodeShape>, node: seq<nat>, n: nat, t: string, k: Key)
    requires |shapes| == |node| && forall i :: 0 <= i < |node| ==> node[i] < n
    ensures Before(shapes, node, n, t, k) == Load(shapes, t, k)
  {
    if |shapes| > 0 { BeforeAll(shapes[..|shapes| - 1], node[..|node| - 1], n, t, k); }
  }

  lemma {:induction false} BeforeNone(shapes: seq<NodeShape>, node: seq<nat>, t: string, k: Key)
    requires |shapes| == |node|
    ensures Before(shapes, node, 0, t, k) == 0
  {
    if |shapes| > 0 { BeforeNone(shapes[..|shapes| - 1], node[..|node| - 1], t, k); }
  }

  /** What all nodes have together. */
  function Capacity(nodes: seq<Vector>): Vector {
    if |nodes| == 0 then map[] else Plus(Capacity(nodes[..|nodes| - 1]), nodes[|nodes| - 1])
  }

  /** A place for every node of a job: no node takes more of any dimension than it has. */
  ghost predicate Places(shapes: seq<NodeShape>, node: seq<nat>, nodes: seq<Vector>, t: string) {
    && |shapes| == |node| && (forall i :: 0 <= i < |node| ==> node[i] < |nodes|)
    && forall n, k :: 0 <= n < |nodes| ==> OnNode(shapes, node, n, t, k) <= At(nodes[n], k)
  }

  lemma {:induction false} BeforeWithin(shapes: seq<NodeShape>, node: seq<nat>, nodes: seq<Vector>, n: nat, t: string, k: Key)
    requires Places(shapes, node, nodes, t) && n <= |nodes|
    ensures Before(shapes, node, n, t, k) <= At(Capacity(nodes[..n]), k)
  {
    if n == 0 {
      BeforeNone(shapes, node, t, k);
    } else {
      BeforeWithin(shapes, node, nodes, n - 1, t, k);
      OneNodeMore(shapes, node, n - 1, t, k);
      assert nodes[..n][..n - 1] == nodes[..n - 1];
    }
  }

  /** The check of a whole cluster never refuses a job that has a place on its nodes. */
  lemma PlaceableFits(parse: Reader, e: Experiment, node: seq<nat>, nodes: seq<Vector>)
    requires Sized(e.job) && e.acceleratorCount == Accelerators(NodeGroups(e.job))
    requires Places(ShapesOf(parse, NodeGroups(e.job)), node, nodes, e.acceleratorType)
    ensures Within(Capacity(nodes), VectorOf(parse, e))
  {
    var shapes, t := ShapesOf(parse, NodeGroups(e.job)), e.acceleratorType;
    assert nodes[..|nodes|] == nodes;
    forall k | k in VectorOf(parse, e) && VectorOf(parse, e)[k] > 0
      ensures At(Capacity(nodes), k) >= VectorOf(parse, e)[k]
    {
      ViewsAgree(parse, e, k);
      if k.kind.Accelerator? { NoAcceleratorKey(parse, NodeGroups(e.job), k); }
      BeforeWithin(shapes, node, nodes, |nodes|, t, k);
      BeforeAll(shapes, node, |nodes|, t, k);
    }
  }

  /** A job of one node that asks for two cores and nothing else, and a node of one core. */
  function TwoCores(two: string): Experiment { Experiment(JobSpec([], 1, two, "", "", 0), "", 0) }

  const ONE_CORE: Vector := map[Key(CPU, "") := 1000]

  lemma OneShape(parse: Reader, two: string)
    requires parse(two) == Some(Quantity(2, 2000)) && parse("") == None
    ensures ShapesOf(parse, NodeGroups(TwoCores(two).job)) == [NodeShape("", 0, map[CPU := 2000])]
  {
    var g := NodeGroups(TwoCores(two).job)[0];
    assert NodeGroups(TwoCores(two).job)[..0] == [];
    assert Amount(parse, g, CPU) == 2000 && Amount(parse, g, Memory) == 0 && Amount(parse, g, Storage) == 0;
    assert ResourcesOf(parse, g) == map[CPU := 2000];
    assert Copies(ShapeOf(parse, g), 1) == [ShapeOf(parse, g)];
  }

  lemma CapacityOfTwo(v: Vector, k: Key)
    ensures At(Capacity([v, v]), k) == 2 * At(v, k)
  {
    var one, two := [v], [v, v];
    assert one[..0] == [] && two[..1] == one;
    assert Capacity(one) == Plus(map[], v) && Capacity(two) == Plus(Capacity(one), v);
    assert At(Capacity(one), k) == At(v, k);
  }

  lemma LoadOfOne(shape: NodeShape, t: string, k: Key)
    ensures Load([shape], t, k) == Demand(shape, t, k)
  {
    assert [shape][..0] == [];
  }

  /** It may admit one that has none: two nodes of one core each, and a node that asks for two. */
  lemma FittingMayHaveNoPlace(parse: Reader, two: string, node: seq<nat>)
    requires parse(two) == Some(Quantity(2, 2000)) && parse("") == None
    ensures var e, nodes := TwoCores(two), [ONE_CORE, ONE_CORE];
            && Within(Capacity(nodes), VectorOf(parse, e))
            && !Places(ShapesOf(parse, NodeGroups(e.job)), node, nodes, "")
  {
    hide ShapesOf, VectorOf, Capacity;
    var e, nodes := TwoCores(two), [ONE_CORE, ONE_CORE];
    var shape := NodeShape("", 0, map[CPU := 2000]);
    OneShape(parse, two);
    NoneAsked(parse, two);
    forall k ensures At(VectorOf(parse, e), k) == Demand(shape, "", k) {
      ViewsAgree(parse, e, k);
      LoadOfOne(shape, "", k);
      if k.kind.Accelerator? { NothingElse(parse, e, k); }
    }
    forall k ensures At(Capacity(nodes), k) == 2 * At(ONE_CORE, k) { CapacityOfTwo(ONE_CORE, k); }
    WithinAt(Capacity(nodes), VectorOf(parse, e));
    if Places([shape], node, nodes, "") {
      OneOnNode(shape, node, "", Key(CPU, ""));
    }
  }

  lemma NoneAsked(parse: Reader, two: string)
    ensures Accelerators(NodeGroups(TwoCores(two).job)) == 0
  {
    assert NodeGroups(TwoCores(two).job)[..0] == [];
  }

  lemma NothingElse(parse: Reader, e: Experiment, k: Key)
    requires k.kind.Accelerator? && e.acceleratorCount == 0
    ensures At(VectorOf(parse, e), k) == 0
  {
    NoAcceleratorKey(parse, NodeGroups(e.job), k);
  }

  lemma OneOnNode(shape: NodeShape, node: seq<nat>, t: string, k: Key)
    requires |node| == 1
    ensures OnNode([shape], node, node[0], t, k) == Demand(shape, t, k)
  {
    assert [shape][..0] == [] && node[..0] == [];
  }
}
