/** Properties of runs of collection operations: the ids a collection hands
    out over any sequence of creates, updates and deletes. */
module StoreLaws {
  import opened Wrappers
  import opened Domain
  import opened FakeMongoDb

  /** One state-changing call on a collection. */
  datatype Op = CreateTask(task: Task) | UpdateTask(id: int, task: Task) | DeleteTask(id: int)

  /** One call: the new store and the ids it assigned (one for a create, none
      otherwise). An update that raises KeyError leaves the store as it was. */
  function Step(s: Store, op: Op): (Store, seq<int>) {
    match op
    case CreateTask(t) =>
      var (s', id) := Created(s, t);
      (s', [id])
    case UpdateTask(id, t) =>
      (match Updated(s, id, t) case Ok(s') => s' case Err(_) => s, [])
    case DeleteTask(id) =>
      (Deleted(s, id), [])
  }

  /** A sequence of calls: the final store and the ids assigned, in order. */
  function Run(s: Store, ops: seq<Op>): (Store, seq<int>)
    decreases |ops|
  {
    if ops == [] then (s, [])
    else
      var (s1, ids1) := Step(s, ops[0]);
      var (s2, ids2) := Run(s1, ops[1..]);
      (s2, ids1 + ids2)
  }

  /** The number of creates in `ops`. */
  function CreateCount(ops: seq<Op>): nat {
    if ops == [] then 0 else (if ops[0].CreateTask? then 1 else 0) + CreateCount(ops[1..])
  }

  /** Over any run the counter never decreases, every assigned id lies
      between the starting and the final counter, and the ids come out
      strictly increasing, hence pairwise distinct: an id, deleted or not,
      is never handed out twice. */
  lemma {:induction false} RunAssignsIncreasingIds(s: Store, ops: seq<Op>)
    ensures |Run(s, ops).1| == CreateCount(ops)
    ensures s.currentIdx <= Run(s, ops).0.currentIdx
    ensures forall i :: 0 <= i < |Run(s, ops).1| ==> s.currentIdx <= Run(s, ops).1[i] < Run(s, ops).0.currentIdx
    ensures forall i, j :: 0 <= i < j < |Run(s, ops).1| ==> Run(s, ops).1[i] < Run(s, ops).1[j]
    decreases |ops|
  {
    if ops != [] {
      var (s1, ids1) := Step(s, ops[0]);
      RunAssignsIncreasingIds(s1, ops[1..]);
    }
  }

  /** From a store that satisfies the counter invariant, every run keeps the
      invariant, assigns exactly the ids counter, counter + 1, ... in turn
      (the probe never skips), and no assigned id was stored at the start. */
  lemma {:induction false} RunFromInvariantStore(s: Store, ops: seq<Op>)
    requires CounterInvariant(s)
    ensures CounterInvariant(Run(s, ops).0)
    ensures Run(s, ops).0.currentIdx == s.currentIdx + |Run(s, ops).1|
    ensures forall i :: 0 <= i < |Run(s, ops).1| ==> Run(s, ops).1[i] == s.currentIdx + i
    ensures forall i :: 0 <= i < |Run(s, ops).1| ==> Run(s, ops).1[i] !in s.files
    decreases |ops|
  {
    if ops != [] {
      var (s1, ids1) := Step(s, ops[0]);
      RunFromInvariantStore(s1, ops[1..]);
      var (s2, ids2) := Run(s1, ops[1..]);
      assert Run(s, ops).1 == ids1 + ids2;
      assert s1.currentIdx == s.currentIdx + |ids1|;
    }
  }

  /** Create, create, delete the first, create: the third id is 2, not the
      deleted 0, and the store then holds ids 1 and 2. */
  lemma DeletedIdIsNotReused(a: Task, b: Task, c: Task)
    ensures var (s1, first) := Created(Empty, a);
            var (s2, second) := Created(s1, b);
            var (s3, third) := Created(Deleted(s2, first), c);
            first == 0 && second == 1 && third == 2 && s3.files.Keys == {1, 2}
  {
  }

  /** The same scenario on a collection object. */
  method DeletedIdIsNotReusedOnCollection() returns (first: int, second: int, third: int)
    ensures first == 0 && second == 1 && third == 2
  {
    var collection := new FakeCollection();
    var a := new TodoTask("buy milk");
    var b := new TodoTask("walk dog");
    var c := new TodoTask("read book");
    var _ := collection.Create(a);
    first := a.id;
    assert first == 0 && collection.currentIdx == 1;
    var _ := collection.Create(b);
    second := b.id;
    assert second == 1 && collection.currentIdx == 2;
    collection.Delete(0);
    var _ := collection.Create(c);
    third := c.id;
  }
}
