/** When replicas of a list agree: which operations commute, which sets of operations converge, and why
    the operations of a network always do while no two of its replicas append under one actor. */
module Convergence {
  import opened Common
  import opened Deliveries
  import opened LSeq

  // ----- two operations

  /** Two operations that do not get in each other's way. */
  predicate Compatible<T(==)>(a: Op<T>, b: Op<T>) {
    a.id != b.id || a == b
  }

  /** Two operations commute on every list exactly if they are on different identifiers or are the same
      operation. In particular a delete does not commute with the insert it undoes. */
  lemma CommuteExactly<T(!new)>(a: Op<T>, b: Op<T>)
    ensures (forall s: seq<Elem<T>> | Sorted(s) :: ApplyOp(ApplyOp(s, a), b) == ApplyOp(ApplyOp(s, b), a))
            <==> Compatible(a, b)
  {
    if Compatible(a, b) {
      forall s: seq<Elem<T>> | Sorted(s)
        ensures ApplyOp(ApplyOp(s, a), b) == ApplyOp(ApplyOp(s, b), a)
      {
        ApplyMeaning(s, a);
        ApplyMeaning(s, b);
        ApplyMeaning(ApplyOp(s, a), b);
        ApplyMeaning(ApplyOp(s, b), a);
        SameContents(ApplyOp(ApplyOp(s, a), b), ApplyOp(ApplyOp(s, b), a));
      }
    } else {
      var empty: seq<Elem<T>> := [];
      assert Sorted(empty);
      ApplyMeaning(empty, a);
      ApplyMeaning(empty, b);
      ApplyMeaning(ApplyOp(empty, a), b);
      ApplyMeaning(ApplyOp(empty, b), a);
      assert Find(ApplyOp(ApplyOp(empty, a), b), a.id) != Find(ApplyOp(ApplyOp(empty, b), a), a.id);
    }
  }

  // ----- streams of operations

  /** What a stream makes of the contents under one identifier. */
  function Outcomes<T>(found: Option<T>, stream: seq<Op<T>>, id: Ident): Option<T>
    decreases |stream|
  {
    if stream == [] then found else Outcomes(Outcome(found, stream[0], id), stream[1..], id)
  }

  lemma {:induction false} StreamMeaning<T>(s: seq<Elem<T>>, stream: seq<Op<T>>)
    requires Sorted(s)
    ensures Sorted(ApplyAll(s, stream))
    ensures forall id :: Find(ApplyAll(s, stream), id) == Outcomes(Find(s, id), stream, id)
    decreases |stream|
  {
    if stream != [] {
      ApplyMeaning(s, stream[0]);
      StreamMeaning(ApplyOp(s, stream[0]), stream[1..]);
    }
  }

  /** The only operation of a stream on an identifier has its outcome once, however often it comes. */
  lemma {:induction false} OutcomeOfOne<T>(found: Option<T>, stream: seq<Op<T>>, op: Op<T>)
    requires forall i | 0 <= i < |stream| && stream[i].id == op.id :: stream[i] == op
    ensures Outcomes(found, stream, op.id) == if op in stream then Outcome(found, op, op.id) else found
    decreases |stream|
  {
    if stream != [] {
      OutcomeOfOne(Outcome(found, stream[0], op.id), stream[1..], op);
    }
  }

  /** A value that is there stays through any inserts. */
  lemma {:induction false} InsertsKeep<T>(found: Option<T>, stream: seq<Op<T>>, id: Ident)
    requires found.Some? && forall i | 0 <= i < |stream| && stream[i].id == id :: stream[i].Insert?
    ensures Outcomes(found, stream, id) == found
    decreases |stream|
  {
    if stream != [] {
      InsertsKeep(found, stream[1..], id);
    }
  }

  lemma {:induction false} OutcomesConcat<T>(found: Option<T>, a: seq<Op<T>>, b: seq<Op<T>>, id: Ident)
    ensures Outcomes(found, a + b, id) == Outcomes(Outcomes(found, a, id), b, id)
    decreases |a|
  {
    if a == [] {
      assert a + b == b;
    } else {
      assert (a + b)[1..] == a[1..] + b;
      OutcomesConcat(Outcome(found, a[0], id), a[1..], b, id);
    }
  }

  /** Two operations of a set on one identifier must be the same, unless both insert what the list has. */
  ghost predicate Agree<T(!new)>(s: seq<Elem<T>>, ops: set<Op<T>>) {
    forall a, b :: a in ops && b in ops && a.id == b.id ==>
      a == b || (a.Insert? && b.Insert? && Find(s, a.id).Some?)
  }

  lemma SameOutcomes<T(!new)>(s: seq<Elem<T>>, a: seq<Op<T>>, b: seq<Op<T>>, ops: set<Op<T>>, id: Ident)
    requires Agree(s, ops) && IsDeliveryOf(a, ops) && IsDeliveryOf(b, ops)
    ensures Outcomes(Find(s, id), a, id) == Outcomes(Find(s, id), b, id)
  {
    assert forall i | 0 <= i < |a| :: a[i] in a;
    assert forall i | 0 <= i < |b| :: b[i] in b;
    if op :| op in ops && op.id == id && !(op.Insert? && Find(s, id).Some?) {
      OutcomeOfOne(Find(s, id), a, op);
      OutcomeOfOne(Find(s, id), b, op);
    } else if Find(s, id).Some? {
      InsertsKeep(Find(s, id), a, id);
      InsertsKeep(Find(s, id), b, id);
    } else {
      OutcomeOfOne(Find(s, id), a, Delete(id));
      OutcomeOfOne(Find(s, id), b, Delete(id));
    }
  }

  /** Operations leave the same list in every order and with any repetition, exactly if they agree. */
  lemma StreamsConverge<T(!new)>(s: seq<Elem<T>>, ops: set<Op<T>>)
    requires Sorted(s)
    ensures OrderIrrelevant(ops, stream => ApplyAll(s, stream)) <==> Agree(s, ops)
  {
    if Agree(s, ops) {
      forall a, b | IsDeliveryOf(a, ops) && IsDeliveryOf(b, ops)
        ensures ApplyAll(s, a) == ApplyAll(s, b)
      {
        StreamMeaning(s, a);
        StreamMeaning(s, b);
        forall id ensures Find(ApplyAll(s, a), id) == Find(ApplyAll(s, b), id) {
          SameOutcomes(s, a, b, ops, id);
        }
        SameContents(ApplyAll(s, a), ApplyAll(s, b));
      }
    } else {
      var a, b :| a in ops && b in ops && a.id == b.id && a != b && !(a.Insert? && b.Insert? && Find(s, a.id).Some?);
      var x, y := Rivals(s, a, b, ops);
      assert ApplyAll(s, x) != ApplyAll(s, y);
    }
  }

  /** Two deliveries that tell two operations apart: if the identifier can be deleted, it is deleted last
      or inserted after that; otherwise the first insert wins. */
  lemma Rivals<T(!new)>(s: seq<Elem<T>>, a: Op<T>, b: Op<T>, ops: set<Op<T>>)
    returns (x: seq<Op<T>>, y: seq<Op<T>>)
    requires Sorted(s) && a in ops && b in ops && a.id == b.id && a != b
    requires !(a.Insert? && b.Insert? && Find(s, a.id).Some?)
    ensures IsDeliveryOf(x, ops) && IsDeliveryOf(y, ops) && ApplyAll(s, x) != ApplyAll(s, y)
  {
    var some := SomeDelivery(ops);
    if Delete(a.id) in ops {
      var insert := if a.Insert? then a else b;
      assert insert.Insert?;
      x, y := some + [Delete(a.id)], some + [Delete(a.id), insert];
      DeleteThenInsert(Find(s, a.id), some, insert);
    } else {
      x, y := [a] + some, [b] + some;
      FirstInsertWins(Find(s, a.id), a, some);
      FirstInsertWins(Find(s, a.id), b, some);
    }
    StreamMeaning(s, x);
    StreamMeaning(s, y);
  }

  lemma DeleteThenInsert<T>(found: Option<T>, some: seq<Op<T>>, insert: Op<T>)
    requires insert.Insert?
    ensures Outcomes(found, some + [Delete(insert.id)], insert.id) == None
    ensures Outcomes(found, some + [Delete(insert.id), insert], insert.id) == Some(insert.value)
  {
    OutcomesConcat(found, some, [Delete(insert.id)], insert.id);
    OutcomesConcat(found, some, [Delete(insert.id), insert], insert.id);
    assert [Delete(insert.id), insert][1..] == [insert];
    assert Outcomes(None, [insert], insert.id) == Some(insert.value);
  }

  lemma FirstInsertWins<T>(found: Option<T>, insert: Op<T>, some: seq<Op<T>>)
    requires insert.Insert? && found.None? && Delete(insert.id) !in some
    ensures Outcomes(found, [insert] + some, insert.id) == Some(insert.value)
  {
    assert forall i | 0 <= i < |some| :: some[i] in some;
    assert ([insert] + some)[1..] == some;
    InsertsKeep(Some(insert.value), some, insert.id);
  }

  // ----- a network of replicas

  /** Replicas have names of their own, since any number of them may be held under one actor. */
  type ReplicaId = nat

  /** A replica's actor, and whether the replica makes changes of its own or only receives them. */
  datatype Member = Member(actor: PublicKey, writes: bool)

  type Group = map<ReplicaId, Member>

  ghost predicate OneWriterPerActor(g: Group) {
    forall v, w | v in g && w in g && g[v].writes && g[w].writes && g[v].actor == g[w].actor :: v == w
  }

  /** The replicas of one list with the history of the run: the operations broadcast so far, and those
      each replica has applied. */
  datatype Net<!T(==)> = Net(lists: ReplicaId -> LSeq<T>, seen: ReplicaId -> set<Op<T>>, pool: set<Op<T>>)

  ghost function NewNet<T(!new)>(g: Group): Net<T> {
    Net(r => LSeq(if r in g then g[r].actor else 0, []), _ => {}, {})
  }

  /** Replica `r` has applied an operation, which it may have minted itself. */
  ghost function Record<T(!new)>(n: Net<T>, r: ReplicaId, op: Op<T>): Net<T> {
    Net(q => if q == r then n.lists(r).Apply(op) else n.lists(q),
        q => if q == r then n.seen(r) + {op} else n.seen(q),
        n.pool + {op})
  }

  /** Replica `r` appends a value and broadcasts the operation. */
  ghost function AppendAt<T(!new)>(n: Net<T>, r: ReplicaId, value: T): Net<T> {
    Record(n, r, n.lists(r).Append(value).1)
  }

  /** What holds of every network, whoever writes. */
  ghost predicate Shaped<T(!new)>(n: Net<T>, g: Group) {
    && (forall r | r in g :: n.lists(r).actor == g[r].actor)
    && (forall op | op in n.pool :: op.Insert?)
  }

  ghost predicate Holds<T(!new)>(list: LSeq<T>, seen: set<Op<T>>) {
    && Sorted(list.elems)
    && (forall id :: Find(list.elems, id).Some? ==> Insert(id, Find(list.elems, id).value) in seen)
    && (forall op :: op in seen ==> Find(list.elems, op.id).Some?)
  }

  /** The network knows one operation at most for an identifier. */
  ghost predicate OneOperation<T(!new)>(pool: set<Op<T>>, id: Ident) {
    forall a, b :: a in pool && b in pool && a.id == b.id == id ==> a == b
  }

  ghost predicate AtReplica<T(!new)>(n: Net<T>, r: ReplicaId) {
    n.seen(r) <= n.pool && Holds(n.lists(r), n.seen(r))
  }

  predicate WritesAs(g: Group, w: ReplicaId, actor: PublicKey) {
    w in g && g[w].writes && g[w].actor == actor
  }

  ghost predicate MadeAt<T(!new)>(n: Net<T>, g: Group, op: Op<T>, w: ReplicaId) {
    WritesAs(g, w, op.id.actor) && op in n.seen(w)
  }

  /** What is broadcast was minted by a writer, which has applied it. */
  ghost predicate Traced<T(!new)>(n: Net<T>, g: Group, op: Op<T>) {
    op in n.pool ==> exists w :: MadeAt(n, g, op, w)
  }

  /** What every run keeps: an identifier stands for one value throughout the network, every replica
      holds exactly the inserts it has applied, and every operation comes from a writer that has applied
      it too. */
  ghost predicate Inv<T(!new)>(n: Net<T>, g: Group) {
    && Shaped(n, g)
    && (forall id :: OneOperation(n.pool, id))
    && (forall r <- g.Keys :: AtReplica(n, r))
    && (forall op :: Traced(n, g, op))
  }

  lemma InvNew<T(!new)>(g: Group)
    ensures Inv(NewNet<T>(g), g)
  {
  }

  lemma HoldsOneMore<T(!new)>(list: LSeq<T>, seen: set<Op<T>>, op: Op<T>)
    requires Holds(list, seen) && op.Insert?
    requires forall other :: other in seen && other.id == op.id ==> other == op
    ensures Holds(list.Apply(op), seen + {op})
  {
    ApplyMeaning(list.elems, op);
    var after := ApplyOp(list.elems, op);
    forall id | Find(after, id).Some?
      ensures Insert(id, Find(after, id).value) in seen + {op}
    {
      assert Find(after, id) == Outcome(Find(list.elems, id), op, id);
    }
    forall o | o in seen + {op}
      ensures Find(after, o.id).Some?
    {
      assert Find(after, o.id) == Outcome(Find(list.elems, o.id), op, o.id);
    }
  }

  /** A freshly minted identifier is above everything the replica holds. */
  lemma {:induction false} MintIsAbove<T>(s: seq<Elem<T>>, actor: PublicKey)
    requires Sorted(s)
    ensures forall i | 0 <= i < |s| :: Before(s[i].id, Mint(s, actor))
    ensures Find(s, Mint(s, actor)).None?
  {
    FoundAt(s, Mint(s, actor));
  }

  /** Recording an operation keeps the invariant if it is an insert, no other operation has its
      identifier, and a writer has applied it. */
  lemma RecordKeepsInv<T(!new)>(n: Net<T>, g: Group, r: ReplicaId, op: Op<T>)
    requires Inv(n, g) && r in g && op.Insert?
    requires forall other :: other in n.pool && other.id == op.id ==> other == op
    requires WritesAs(g, r, op.id.actor) || op in n.pool
    ensures Inv(Record(n, r, op), g)
  {
    var m := Record(n, r, op);
    assert AtReplica(n, r);
    HoldsOneMore(n.lists(r), n.seen(r), op);
    forall id ensures OneOperation(m.pool, id) {
      assert OneOperation(n.pool, id);
    }
    forall q <- g.Keys ensures AtReplica(m, q) {
      assert AtReplica(n, q);
    }
    forall o ensures Traced(m, g, o) {
      TracedMore(n, g, r, op, o);
    }
  }

  lemma TracedMore<T(!new)>(n: Net<T>, g: Group, r: ReplicaId, op: Op<T>, other: Op<T>)
    requires Shaped(n, g) && r in g && op.Insert? && Traced(n, g, other)
    requires WritesAs(g, r, op.id.actor) || op in n.pool
    ensures Traced(Record(n, r, op), g, other)
  {
    var m := Record(n, r, op);
    if other in n.pool {
      var w :| MadeAt(n, g, other, w);
      assert MadeAt(m, g, other, w);
    } else if other in m.pool {
      assert MadeAt(m, g, other, r);
    }
  }

  /** It is new to the whole network: no other writer mints it, and the replica still holds all that its
      own actor has minted. */
  lemma MintIsNew<T(!new)>(n: Net<T>, g: Group, r: ReplicaId)
    requires Inv(n, g) && OneWriterPerActor(g) && r in g && g[r].writes
    ensures forall op :: op in n.pool ==> op.id != Mint(n.lists(r).elems, g[r].actor)
  {
    assert AtReplica(n, r);
    MintIsAbove(n.lists(r).elems, g[r].actor);
    forall own | own in n.pool && own.id.actor == g[r].actor
      ensures Find(n.lists(r).elems, own.id).Some?
    {
      assert Traced(n, g, own);
      var w :| MadeAt(n, g, own, w);
    }
  }

  lemma InvAppend<T(!new)>(n: Net<T>, g: Group, r: ReplicaId, value: T)
    requires Inv(n, g) && OneWriterPerActor(g) && r in g && g[r].writes
    ensures Inv(AppendAt(n, r, value), g)
  {
    MintIsNew(n, g, r);
    RecordKeepsInv(n, g, r, n.lists(r).Append(value).1);
  }

  lemma InvDeliver<T(!new)>(n: Net<T>, g: Group, r: ReplicaId, op: Op<T>)
    requires Inv(n, g) && r in g && op in n.pool
    ensures Inv(Record(n, r, op), g)
  {
    assert OneOperation(n.pool, op.id);
    RecordKeepsInv(n, g, r, op);
  }

  /** Strong eventual consistency: two replicas that have applied the same operations hold the same
      list. */
  lemma SameSeenSameList<T(!new)>(n: Net<T>, g: Group, p: ReplicaId, q: ReplicaId)
    requires Inv(n, g) && p in g && q in g
    requires n.seen(p) == n.seen(q)
    ensures n.lists(p).elems == n.lists(q).elems
  {
    var x, y := n.lists(p).elems, n.lists(q).elems;
    assert AtReplica(n, p) && AtReplica(n, q);
    forall id ensures Find(x, id) == Find(y, id) {
      assert OneOperation(n.pool, id);
      if Find(x, id).Some? {
        assert Insert(id, Find(x, id).value) in n.seen(q);
      }
      if Find(y, id).Some? {
        assert Insert(id, Find(y, id).value) in n.seen(p);
      }
    }
    SameContents(x, y);
  }

  /** One writer per actor is needed: two replicas that hold the same list and append different values
      under one actor mint one identifier for both, and after that no inserts whatever, let alone an
      exchange of those two, bring them together again. */
  lemma SharedActorDiverges<T(!new)>(list: LSeq<T>, v: T, w: T, a: seq<Op<T>>, b: seq<Op<T>>)
    requires Sorted(list.elems) && v != w
    requires forall i | 0 <= i < |a| :: a[i].Insert?
    requires forall i | 0 <= i < |b| :: b[i].Insert?
    ensures ApplyAll(list.Append(v).0.elems, a) != ApplyAll(list.Append(w).0.elems, b)
  {
    var id := Mint(list.elems, list.actor);
    MintIsAbove(list.elems, list.actor);
    ApplyMeaning(list.elems, Insert(id, v));
    ApplyMeaning(list.elems, Insert(id, w));
    StreamMeaning(list.Append(v).0.elems, a);
    StreamMeaning(list.Append(w).0.elems, b);
    InsertsKeep(Some(v), a, id);
    InsertsKeep(Some(w), b, id);
  }
}
