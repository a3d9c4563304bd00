/** When the lengths recorded at the replicas of a network put all changes in one order, as they do on a
    single replica. */
module ClusterOrder {
  import opened Common
  import opened LSeq
  import opened Convergence
  import opened SequenceTypes
  import opened SequenceCrdt
  import opened Cluster
  import opened LocalRuns

  /** A replica that has applied all that was broadcast. */
  ghost predicate CaughtUp<M(!new)>(c: Cluster<M>, r: ReplicaId) {
    && c.entries.seen(r) == c.entries.pool
    && c.permissions.seen(r) == c.permissions.pool
    && c.owners.seen(r) == c.owners.pool
  }

  ghost predicate AtMostOneWriter(g: Group) {
    forall v, w | v in g && w in g && g[v].writes && g[w].writes :: v == w
  }

  /** Nobody writes but `w`, if anybody does. */
  ghost predicate NoOtherWriter(g: Group, w: ReplicaId) {
    w in g && forall v | v in g && g[v].writes :: v == w
  }

  // ----- one writer

  /** The calls that `w` makes in a run. */
  function OwnCalls<M>(group: Group, events: seq<Event<M>>, w: ReplicaId): seq<LocalCall<M>>
    requires w in group
  {
    if events == [] then []
    else
      var last := events[|events| - 1];
      OwnCalls(group, events[..|events| - 1], w)
      + if last.Local? && last.at == w && group[w].writes then [last.call] else []
  }

  /** Applying again what is held already changes nothing. */
  lemma AppliedAgain<T(!new)>(list: LSeq<T>, seen: set<Op<T>>, op: Op<T>)
    requires Holds(list, seen) && op in seen && op.Insert?
    ensures list.Apply(op) == list
  {
    ApplyMeaning(list.elems, op);
    forall id ensures Find(list.Apply(op).elems, id) == Find(list.elems, id) {
      assert Find(list.Apply(op).elems, id) == Outcome(Find(list.elems, id), op, id);
    }
    SameContents(list.Apply(op).elems, list.elems);
  }

  lemma WriterHasAll<T(!new)>(n: Net<T>, g: Group, w: ReplicaId)
    requires Inv(n, g) && NoOtherWriter(g, w)
    ensures n.seen(w) == n.pool
    ensures forall op | op in n.pool :: n.lists(w).Apply(op) == n.lists(w)
  {
    assert AtReplica(n, w);
    forall op | op in n.pool
      ensures op in n.seen(w) && n.lists(w).Apply(op) == n.lists(w)
    {
      assert Traced(n, g, op);
      var v :| MadeAt(n, g, op, v);
      AppliedAgain(n.lists(w), n.seen(w), op);
    }
  }

  /** The only writer hears nothing new: its replica is that of a run of its own calls. */
  lemma {:induction false} WriterIsLocal<M(!new)>(address: Address, group: Group, events: seq<Event<M>>, w: ReplicaId)
    requires NoOtherWriter(group, w)
    ensures ReplicaOf(RunCluster(address, group, events), w) ==
        RunLocal(Fresh(group[w].actor, address), OwnCalls(group, events, w))
  {
    if events == [] {
      NewReplicaIsFresh<M>(address, group, w);
    } else {
      var shorter, last := events[..|events| - 1], events[|events| - 1];
      WriterIsLocal(address, group, shorter, w);
      WriterStep(address, group, shorter, last, w);
      if last.Local? && last.at == w && group[w].writes {
        RunLocalSnoc(Fresh(group[w].actor, address), OwnCalls(group, shorter, w), last.call);
      } else {
        assert OwnCalls(group, events, w) == OwnCalls(group, shorter, w);
      }
    }
  }

  lemma NewReplicaIsFresh<M(!new)>(address: Address, group: Group, r: ReplicaId)
    requires r in group
    ensures ReplicaOf(NewCluster<M>(address, group), r) == Fresh(group[r].actor, address)
  {
  }

  lemma RunLocalSnoc<M>(r: Replica<M>, calls: seq<LocalCall<M>>, call: LocalCall<M>)
    ensures RunLocal(r, calls + [call]) == LocalRuns.Local(RunLocal(r, calls), call)
  {
    assert (calls + [call])[..|calls|] == calls;
  }

  lemma WriterStep<M(!new)>(address: Address, group: Group, events: seq<Event<M>>, e: Event<M>, w: ReplicaId)
    requires NoOtherWriter(group, w)
    ensures var c := RunCluster(address, group, events);
            ReplicaOf(Happen(c, e), w) ==
            if e.Local? && e.at == w && group[w].writes then LocalRuns.Local(ReplicaOf(c, w), e.call)
            else ReplicaOf(c, w)
  {
    var c := RunCluster(address, group, events);
    RunKeepsInv(address, group, events);
    if e.at != w {
      EventElsewhere(c, e, w);
    } else if TakesPlace(c, e) {
      EventAtReplica(c, e);
      WriterHasAll(c.entries, group, w);
      WriterHasAll(c.permissions, group, w);
      WriterHasAll(c.owners, group, w);
    }
  }

  /** The owners and permissions a replica holds carry lengths of one order. */
  ghost predicate InOneOrder<M(!new)>(r: Replica<M>) {
    Chronological(OwnersOf(r), PermsOf(r), r.data.Len())
  }

  /** With one writer every replica that has caught up holds records of one order, and rebuilds from them
      the changes the writer made, in the order in which it made them. */
  lemma OneWriterInOrder<M(!new)>(address: Address, group: Group, events: seq<Event<M>>, w: ReplicaId, r: ReplicaId)
    requires NoOtherWriter(group, w) && r in group
    ensures var c := RunCluster(address, group, events);
            CaughtUp(c, r) ==>
              && InOneOrder(ReplicaOf(c, r))
              && Rebuild(OwnersOf(ReplicaOf(c, r)), PermsOf(ReplicaOf(c, r))) ==
                 Changes(Fresh(group[w].actor, address), OwnCalls(group, events, w))
  {
    var c := RunCluster(address, group, events);
    if CaughtUp(c, r) {
      RunKeepsInv(address, group, events);
      WriterHasAll(c.entries, group, w);
      WriterHasAll(c.permissions, group, w);
      WriterHasAll(c.owners, group, w);
      SameSeenSameLists(c, r, w);
      WriterIsLocal(address, group, events, w);
      LocalRunIsChronological(group[w].actor, address, OwnCalls(group, events, w));
      LocalRunIsRebuilt(group[w].actor, address, OwnCalls(group, events, w));
    }
  }

  // ----- two writers

  /** An operation that a writer mints when it has minted so many before and heard of nothing. */
  function Minted(actor: PublicKey, rank: nat, owner: Owner): Op<Owner> {
    Insert(Ident(rank, actor), owner)
  }

  /** Whatever the actors, the second owner that one writer sets comes after the first that the other
      sets. */
  lemma CrossedOwners(a: PublicKey, b: PublicKey, later: Owner, early: Owner) returns (i: nat, j: nat)
    ensures var own := [Elem(Ident(0, a), later)];
            var list := Values(ApplyOp(ApplyOp(own, Minted(b, 0, early)), Minted(b, 1, early)));
            i < j < |list| && list[i] == later && list[j] == early
  {
    var own := [Elem(Ident(0, a), later)];
    var mark := Elem(Ident(0, b), early);
    var one := ApplyOp(own, Minted(b, 0, early));
    if b < a {
      assert one == [mark] + own;
    } else if a == b {
      assert one == own;
    } else {
      assert own[1..] == [];
      assert ApplyOp(own[1..], Minted(b, 0, early)) == [mark];
      assert one == own + [mark];
    }
    var two := ApplyOp(one, Minted(b, 1, early));
    ApplyAtEnd(one, Minted(b, 1, early));
    i, j := if b < a then 1 else 0, |two| - 1;
    assert two[i] == own[0] && two[j] == Elem(Ident(1, b), early);
  }

  /** One writer sets an owner, the other sets two before it hears of that, and the first hears of both. */
  ghost function CrossedNet(g: Group, v: ReplicaId, w: ReplicaId, later: Owner, early: Owner): Net<Owner> {
    AppendAt(AppendAt(AppendAt(NewNet(g), v, later), w, early), w, early)
  }

  lemma CrossedNetIs(g: Group, v: ReplicaId, w: ReplicaId, later: Owner, early: Owner)
    requires v in g && w in g && v != w
    ensures var n := CrossedNet(g, v, w, later, early);
            var (own, a) := (Minted(g[v].actor, 0, later), Minted(g[w].actor, 0, early));
            var b := Minted(g[w].actor, 1, early);
            n.pool == {own, a, b} && n.seen(v) == {own} && n.lists(v).elems == [Elem(own.id, later)]
  {
    var (own, a) := (Minted(g[v].actor, 0, later), Minted(g[w].actor, 0, early));
    var n1 := AppendAt(NewNet(g), v, later);
    assert n1.pool == {own} && n1.seen(v) == {own} && n1.lists(w).elems == [];
    var n2 := AppendAt(n1, w, early);
    assert n2.pool == {own, a} && n2.seen(v) == {own} && n2.lists(w).elems == [Elem(a.id, early)];
  }

  lemma CrossedNetHeard(g: Group, v: ReplicaId, w: ReplicaId, later: Owner, early: Owner)
    requires v in g && w in g && v != w
    ensures var n := CrossedNet(g, v, w, later, early);
            var (a, b) := (Minted(g[w].actor, 0, early), Minted(g[w].actor, 1, early));
            && a in n.pool && b in n.pool
            && var m := Record(Record(n, v, a), v, b);
               && m.seen(v) == m.pool
               && m.lists(v).elems == ApplyOp(ApplyOp([Elem(Ident(0, g[v].actor), later)], a), b)
  {
    CrossedNetIs(g, v, w, later, early);
  }

  /** Two writers: one counts the entry it has appended and then an owner, the other sets its owners in
      ignorance of the entry. The first catches up and holds lengths that go down. */
  lemma Crossing<M(!new)>(address: Address, group: Group, v: ReplicaId, w: ReplicaId, key: PublicKey)
    returns (c: Cluster<M>)
    requires v in group && w in group && group[v].writes && group[w].writes && v != w
    ensures Reachable(c) && c.address == address && c.group == group
    ensures CaughtUp(c, v) && !InOneOrder(ReplicaOf(c, v))
  {
    var later, early := SequenceTypes.Owner.Owner(key, 1, 0), SequenceTypes.Owner.Owner(key, 0, 0);
    var (a, b) := (Minted(group[w].actor, 0, early), Minted(group[w].actor, 1, early));
    c := NewCluster(address, group);
    ReachNew<M>(address, group);
    ReachEntry(c, v, Bytes([]));
    c := c.(entries := AppendAt(c.entries, v, Bytes([])));
    ReachOwner(c, v, key);
    c := c.(owners := AppendAt(c.owners, v, later));
    ReachOwner(c, w, key);
    c := c.(owners := AppendAt(c.owners, w, early));
    ReachOwner(c, w, key);
    c := c.(owners := AppendAt(c.owners, w, early));
    CrossedNetHeard(group, v, w, later, early);
    ReachOwnerHeard(c, v, a);
    c := c.(owners := Record(c.owners, v, a));
    ReachOwnerHeard(c, v, b);
    c := c.(owners := Record(c.owners, v, b));
    var i, j := CrossedOwners(group[v].actor, group[w].actor, later, early);
    NotInOrder(ReplicaOf(c, v), i, j);
  }

  lemma NotInOrder<M(!new)>(r: Replica<M>, i: nat, j: nat)
    requires i < j < |OwnersOf(r)| && OwnersOf(r)[i].entriesIndex > OwnersOf(r)[j].entriesIndex
    ensures !InOneOrder(r)
  {
  }

  // ----- the exact condition

  /** A run after which every replica that has caught up holds records of one order. */
  ghost predicate OrderedWhenCaughtUp<M(!new)>(address: Address, group: Group, events: seq<Event<M>>) {
    var c := RunCluster(address, group, events);
    forall r | r in group && CaughtUp(c, r) :: InOneOrder(ReplicaOf(c, r))
  }

  /** All runs of a group of replicas are like that exactly if at most one of them writes. */
  lemma OrderedExactly<M(!new)>(address: Address, group: Group)
    ensures (forall events: seq<Event<M>> :: OrderedWhenCaughtUp(address, group, events)) <==> AtMostOneWriter(group)
  {
    if AtMostOneWriter(group) {
      forall events: seq<Event<M>> ensures OrderedWhenCaughtUp(address, group, events) {
        forall r | r in group && CaughtUp(RunCluster(address, group, events), r)
          ensures InOneOrder(ReplicaOf(RunCluster(address, group, events), r))
        {
          var w := if v :| v in group && group[v].writes then v else r;
          OneWriterInOrder(address, group, events, w, r);
        }
      }
    } else {
      var v, w :| v in group && w in group && group[v].writes && group[w].writes && v != w;
      var c := Crossing<M>(address, group, v, w, 0);
      var events :| LeadTo(events, c);
      assert !OrderedWhenCaughtUp(address, group, events);
    }
  }
}
