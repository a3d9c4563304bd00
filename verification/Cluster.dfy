/** A network of replicas of one Sequence: writers make local calls and broadcast the resulting operations,
    which reach the other replicas in any order, any number of times, or not at all. */
module Cluster {
  import opened Common
  import opened LSeq
  import opened Convergence
  import opened SequenceTypes
  import opened SequenceCrdt
  import opened Sequence
  import LocalRuns

  datatype Cluster<!M(==)> = Cluster(
    address: Address,
    group: Group,
    entries: Net<Entry>,
    permissions: Net<Perms<M>>,
    owners: Net<Owner>)

  ghost predicate ClusterShaped<M(!new)>(c: Cluster<M>) {
    Shaped(c.entries, c.group) && Shaped(c.permissions, c.group) && Shaped(c.owners, c.group)
  }

  ghost predicate ClusterInv<M(!new)>(c: Cluster<M>) {
    Inv(c.entries, c.group) && Inv(c.permissions, c.group) && Inv(c.owners, c.group)
  }

  ghost function ReplicaOf<M>(c: Cluster<M>, at: ReplicaId): Replica<M> {
    Replica(c.address, c.entries.lists(at), c.permissions.lists(at), c.owners.lists(at))
  }

  datatype Event<M> =
    | Local(at: ReplicaId, call: LocalRuns.LocalCall<M>)
    | DeliverEntry(at: ReplicaId, entryOp: Op<Entry>)
    | DeliverPermissions(at: ReplicaId, permsOp: Op<Perms<M>>)
    | DeliverOwner(at: ReplicaId, ownerOp: Op<Owner>)

  ghost function OwnerRecord<M>(c: Cluster<M>, at: ReplicaId, owner: PublicKey): Owner {
    Owner.Owner(owner, c.entries.lists(at).Len(), c.permissions.lists(at).Len())
  }

  ghost function PermsRecord<M>(c: Cluster<M>, at: ReplicaId, matrix: M): Perms<M> {
    Perms(matrix, c.entries.lists(at).Len(), c.owners.lists(at).Len())
  }

  /** A local call at one replica. */
  ghost function HappenLocal<M(!new)>(c: Cluster<M>, at: ReplicaId, call: LocalRuns.LocalCall<M>): Cluster<M> {
    match call
    case Append(entry) => c.(entries := AppendAt(c.entries, at, entry))
    case SetOwner(owner) => c.(owners := AppendAt(c.owners, at, OwnerRecord(c, at, owner)))
    case SetPermissions(matrix) => c.(permissions := AppendAt(c.permissions, at, PermsRecord(c, at, matrix)))
  }

  /** An event that takes place: a call by a writer, or the arrival at any replica of what was broadcast. */
  ghost predicate TakesPlace<M(!new)>(c: Cluster<M>, e: Event<M>) {
    && e.at in c.group
    && match e
       case Local(at, _) => c.group[at].writes
       case DeliverEntry(_, op) => op in c.entries.pool
       case DeliverPermissions(_, op) => op in c.permissions.pool
       case DeliverOwner(_, op) => op in c.owners.pool
  }

  ghost function Happen<M(!new)>(c: Cluster<M>, e: Event<M>): Cluster<M> {
    if !TakesPlace(c, e) then c
    else
      match e
      case Local(at, call) => HappenLocal(c, at, call)
      case DeliverEntry(at, op) => c.(entries := Record(c.entries, at, op))
      case DeliverPermissions(at, op) => c.(permissions := Record(c.permissions, at, op))
      case DeliverOwner(at, op) => c.(owners := Record(c.owners, at, op))
  }

  lemma HappenKeepsShape<M(!new)>(c: Cluster<M>, e: Event<M>)
    requires ClusterShaped(c)
    ensures ClusterShaped(Happen(c, e))
  {
  }

  lemma LocalKeepsInv<M(!new)>(c: Cluster<M>, at: ReplicaId, call: LocalRuns.LocalCall<M>)
    requires ClusterInv(c) && OneWriterPerActor(c.group) && at in c.group && c.group[at].writes
    ensures ClusterInv(HappenLocal(c, at, call))
  {
    match call
    case Append(entry) => InvAppend(c.entries, c.group, at, entry);
    case SetOwner(owner) => InvAppend(c.owners, c.group, at, OwnerRecord(c, at, owner));
    case SetPermissions(matrix) => InvAppend(c.permissions, c.group, at, PermsRecord(c, at, matrix));
  }

  lemma HappenKeepsInv<M(!new)>(c: Cluster<M>, e: Event<M>)
    requires ClusterInv(c) && OneWriterPerActor(c.group)
    ensures ClusterInv(Happen(c, e))
  {
    if TakesPlace(c, e) {
      match e
      case Local(at, call) => LocalKeepsInv(c, at, call);
      case DeliverEntry(at, op) => InvDeliver(c.entries, c.group, at, op);
      case DeliverPermissions(at, op) => InvDeliver(c.permissions, c.group, at, op);
      case DeliverOwner(at, op) => InvDeliver(c.owners, c.group, at, op);
    }
  }

  /** An event changes no replica but the one it happens at. */
  lemma EventElsewhere<M(!new)>(c: Cluster<M>, e: Event<M>, other: ReplicaId)
    requires other != e.at
    ensures ReplicaOf(Happen(c, e), other) == ReplicaOf(c, other)
  {
  }

  /** The replica of an event, once it has taken place. */
  ghost function Received<M(!new)>(r: Replica<M>, e: Event<M>): Replica<M> {
    match e
    case Local(_, call) => LocalRuns.Local(r, call)
    case DeliverEntry(_, op) => r.(data := r.data.Apply(op))
    case DeliverPermissions(_, op) => r.(permissions := r.permissions.Apply(op))
    case DeliverOwner(_, op) => r.(owners := r.owners.Apply(op))
  }

  lemma EventAtReplica<M(!new)>(c: Cluster<M>, e: Event<M>)
    requires TakesPlace(c, e)
    ensures ReplicaOf(Happen(c, e), e.at) == Received(ReplicaOf(c, e.at), e)
  {
  }

  function PublicCall(e: Event<PublicMatrix>): Call {
    match e
    case Local(_, Append(entry)) => Call.Append(entry)
    case Local(_, SetOwner(owner)) => Call.SetOwner(owner)
    case Local(_, SetPermissions(matrix)) => SetPubPermissions(matrix)
    case DeliverEntry(_, op) => ApplyCrdtOp(op)
    case DeliverPermissions(_, op) => ApplyCrdtPubPermsOp(op)
    case DeliverOwner(_, op) => ApplyCrdtOwnerOp(op)
  }

  function PrivateCall(e: Event<PrivateMatrix>): Call {
    match e
    case Local(_, Append(entry)) => Call.Append(entry)
    case Local(_, SetOwner(owner)) => Call.SetOwner(owner)
    case Local(_, SetPermissions(matrix)) => SetPrivatePermissions(matrix)
    case DeliverEntry(_, op) => ApplyCrdtOp(op)
    case DeliverPermissions(_, op) => ApplyCrdtPrivatePermsOp(op)
    case DeliverOwner(_, op) => ApplyCrdtOwnerOp(op)
  }

  lemma ReceivedIsPublicCall(r: Replica<PublicMatrix>, e: Event<PublicMatrix>)
    requires e.DeliverPermissions? ==> e.permsOp.Insert?
    ensures Step(DataState.Public(r), PublicCall(e)) == (DataState.Public(Received(r, e)), Ok(()))
  {
  }

  lemma ReceivedIsPrivateCall(r: Replica<PrivateMatrix>, e: Event<PrivateMatrix>)
    ensures Step(DataState.Private(r), PrivateCall(e)) == (DataState.Private(Received(r, e)), Ok(()))
  {
  }

  lemma BroadcastIsInsert<M(!new)>(c: Cluster<M>, e: Event<M>)
    requires ClusterShaped(c) && TakesPlace(c, e)
    ensures e.DeliverPermissions? ==> e.permsOp.Insert?
  {
  }

  ghost function NewCluster<M(!new)>(address: Address, group: Group): Cluster<M> {
    Cluster(address, group, NewNet(group), NewNet(group), NewNet(group))
  }

  /** The network after any events, the last one last. */
  ghost function RunCluster<M(!new)>(address: Address, group: Group, events: seq<Event<M>>): (c: Cluster<M>)
    ensures c.group == group && c.address == address
  {
    if events == [] then NewCluster(address, group)
    else
      var before := RunCluster(address, group, events[..|events| - 1]);
      Happen(before, events[|events| - 1])
  }

  lemma RunSnoc<M(!new)>(address: Address, group: Group, events: seq<Event<M>>, e: Event<M>)
    ensures RunCluster(address, group, events + [e]) == Happen(RunCluster(address, group, events), e)
  {
    assert (events + [e])[..|events|] == events;
  }

  ghost predicate LeadTo<M(!new)>(events: seq<Event<M>>, c: Cluster<M>) {
    RunCluster(c.address, c.group, events) == c
  }

  /** A network that some run leads to. */
  ghost predicate Reachable<M(!new)>(c: Cluster<M>) {
    exists events: seq<Event<M>> :: LeadTo(events, c)
  }

  lemma ReachNew<M(!new)>(address: Address, group: Group)
    ensures Reachable(NewCluster<M>(address, group))
  {
    assert LeadTo([], NewCluster<M>(address, group));
  }

  lemma ReachNext<M(!new)>(c: Cluster<M>, e: Event<M>)
    requires Reachable(c)
    ensures Reachable(Happen(c, e))
  {
    var events :| LeadTo(events, c);
    RunSnoc(c.address, c.group, events, e);
    assert LeadTo(events + [e], Happen(c, e));
  }

  lemma ReachEntry<M(!new)>(c: Cluster<M>, at: ReplicaId, entry: Entry)
    requires Reachable(c) && at in c.group && c.group[at].writes
    ensures Reachable(c.(entries := AppendAt(c.entries, at, entry)))
  {
    ReachNext(c, Local(at, LocalRuns.Append(entry)));
  }

  lemma ReachEntryHeard<M(!new)>(c: Cluster<M>, at: ReplicaId, op: Op<Entry>)
    requires Reachable(c) && at in c.group && op in c.entries.pool
    ensures Reachable(c.(entries := Record(c.entries, at, op)))
  {
    ReachNext(c, DeliverEntry(at, op));
  }

  lemma ReachOwner<M(!new)>(c: Cluster<M>, at: ReplicaId, owner: PublicKey)
    requires Reachable(c) && at in c.group && c.group[at].writes
    ensures Reachable(c.(owners := AppendAt(c.owners, at, OwnerRecord(c, at, owner))))
  {
    ReachNext(c, Local(at, LocalRuns.SetOwner(owner)));
  }

  lemma ReachOwnerHeard<M(!new)>(c: Cluster<M>, at: ReplicaId, op: Op<Owner>)
    requires Reachable(c) && at in c.group && op in c.owners.pool
    ensures Reachable(c.(owners := Record(c.owners, at, op)))
  {
    ReachNext(c, DeliverOwner(at, op));
  }

  lemma {:induction false} RunIsShaped<M(!new)>(address: Address, group: Group, events: seq<Event<M>>)
    ensures ClusterShaped(RunCluster(address, group, events))
  {
    if events != [] {
      RunIsShaped(address, group, events[..|events| - 1]);
      HappenKeepsShape(RunCluster(address, group, events[..|events| - 1]), events[|events| - 1]);
    }
  }

  /** Every run keeps the invariant on all three lists, while no two writers share an actor. */
  lemma {:induction false} RunKeepsInv<M(!new)>(address: Address, group: Group, events: seq<Event<M>>)
    requires OneWriterPerActor(group)
    ensures ClusterInv(RunCluster(address, group, events))
  {
    if events == [] {
      InvNew<Entry>(group);
      InvNew<Perms<M>>(group);
      InvNew<Owner>(group);
    } else {
      RunKeepsInv(address, group, events[..|events| - 1]);
      HappenKeepsInv(RunCluster(address, group, events[..|events| - 1]), events[|events| - 1]);
    }
  }

  /** In every run of public Sequences each event that takes place is a call at its replica, and the call
      is let through. */
  lemma PublicEventIsCall(address: Address, group: Group, events: seq<Event<PublicMatrix>>, e: Event<PublicMatrix>)
    requires TakesPlace(RunCluster(address, group, events), e)
    ensures var c := RunCluster(address, group, events);
            Step(DataState.Public(ReplicaOf(c, e.at)), PublicCall(e)) ==
            (DataState.Public(ReplicaOf(Happen(c, e), e.at)), Ok(()))
  {
    var c := RunCluster(address, group, events);
    RunIsShaped(address, group, events);
    BroadcastIsInsert(c, e);
    EventAtReplica(c, e);
    ReceivedIsPublicCall(ReplicaOf(c, e.at), e);
  }

  /** And the same for private ones. */
  lemma PrivateEventIsCall(address: Address, group: Group, events: seq<Event<PrivateMatrix>>, e: Event<PrivateMatrix>)
    requires TakesPlace(RunCluster(address, group, events), e)
    ensures var c := RunCluster(address, group, events);
            Step(DataState.Private(ReplicaOf(c, e.at)), PrivateCall(e)) ==
            (DataState.Private(ReplicaOf(Happen(c, e), e.at)), Ok(()))
  {
    var c := RunCluster(address, group, events);
    EventAtReplica(c, e);
    ReceivedIsPrivateCall(ReplicaOf(c, e.at), e);
  }

  // ----- convergence

  /** Two replicas that hold the same lists; they differ at most in their actors. */
  predicate SameLists<M(==)>(a: Replica<M>, b: Replica<M>) {
    && a.address == b.address
    && a.data.elems == b.data.elems
    && a.permissions.elems == b.permissions.elems
    && a.owners.elems == b.owners.elems
  }

  /** Two replicas that have applied the same operations, in whatever order and however often. */
  ghost predicate SameSeen<M>(c: Cluster<M>, p: ReplicaId, q: ReplicaId) {
    && c.entries.seen(p) == c.entries.seen(q)
    && c.permissions.seen(p) == c.permissions.seen(q)
    && c.owners.seen(p) == c.owners.seen(q)
  }

  lemma SameSeenSameLists<M(!new)>(c: Cluster<M>, p: ReplicaId, q: ReplicaId)
    requires ClusterInv(c) && p in c.group && q in c.group && SameSeen(c, p, q)
    ensures SameLists(ReplicaOf(c, p), ReplicaOf(c, q))
  {
    SameSeenSameList(c.entries, c.group, p, q);
    SameSeenSameList(c.permissions, c.group, p, q);
    SameSeenSameList(c.owners, c.group, p, q);
  }

  /** Two replicas that answer every question about their lists alike. */
  ghost predicate SameAnswers<M(!new)>(a: Replica<M>, b: Replica<M>) {
    && a.LastEntry() == b.LastEntry()
    && (forall i :: a.Get(i) == b.Get(i))
    && (forall i :: a.Owner(i) == b.Owner(i))
    && (forall i :: a.Permissions(i) == b.Permissions(i))
    && (forall i, j :: a.InRange(i, j) == b.InRange(i, j))
  }

  lemma SameListsAnswerAlike<M(!new)>(a: Replica<M>, b: Replica<M>)
    requires SameLists(a, b)
    ensures SameAnswers(a, b)
  {
  }

  /** In every run, while no two writers share an actor, two such replicas hold the same lists, and so
      answer every question alike. */
  lemma ReplicasConverge<M(!new)>(address: Address, group: Group, events: seq<Event<M>>, p: ReplicaId, q: ReplicaId)
    requires OneWriterPerActor(group) && p in group && q in group
    ensures var c := RunCluster(address, group, events);
            SameSeen(c, p, q) ==>
              SameLists(ReplicaOf(c, p), ReplicaOf(c, q)) && SameAnswers(ReplicaOf(c, p), ReplicaOf(c, q))
  {
    var c := RunCluster(address, group, events);
    RunKeepsInv(address, group, events);
    if SameSeen(c, p, q) {
      SameSeenSameLists(c, p, q);
      SameListsAnswerAlike(ReplicaOf(c, p), ReplicaOf(c, q));
    }
  }

  /** A run in which replicas that have applied the same operations hold the same lists. */
  ghost predicate Converges<M(!new)>(address: Address, group: Group, events: seq<Event<M>>) {
    var c := RunCluster(address, group, events);
    forall p, q | p in group && q in group && SameSeen(c, p, q) :: SameLists(ReplicaOf(c, p), ReplicaOf(c, q))
  }

  /** Whatever replicas there are, all their runs converge exactly if no two writers share an actor; any
      number of further replicas may be held under a writer's actor. */
  lemma ConvergesExactly<M(!new)>(address: Address, group: Group)
    ensures (forall events: seq<Event<M>> :: Converges(address, group, events)) <==> OneWriterPerActor(group)
  {
    if OneWriterPerActor(group) {
      forall events: seq<Event<M>> ensures Converges(address, group, events) {
        forall p, q | p in group && q in group && SameSeen(RunCluster(address, group, events), p, q)
          ensures SameLists(ReplicaOf(RunCluster(address, group, events), p),
                            ReplicaOf(RunCluster(address, group, events), q))
        {
          ReplicasConverge(address, group, events, p, q);
        }
      }
    } else {
      var v, w :| v in group && w in group && group[v].writes && group[w].writes
                  && group[v].actor == group[w].actor && v != w;
      var c := Exchange<M>(address, group, v, w);
      var events :| LeadTo(events, c);
      assert !Converges(address, group, events);
    }
  }

  lemma ExchangedEntries(g: Group, v: ReplicaId, w: ReplicaId, x: Entry, y: Entry)
    requires v in g && w in g && v != w && g[v].actor == g[w].actor && x != y
    ensures var n := AppendAt(AppendAt(NewNet(g), v, x), w, y);
            var (a, b) := (Insert(Ident(0, g[v].actor), x), Insert(Ident(0, g[v].actor), y));
            && n.pool == {a, b}
            && var m := Record(Record(n, v, b), w, a);
               m.seen(v) == m.seen(w) && m.lists(v).elems != m.lists(w).elems
  {
  }

  /** Two writers under one actor append different entries and send each other their operations. */
  lemma Exchange<M(!new)>(address: Address, group: Group, v: ReplicaId, w: ReplicaId) returns (c: Cluster<M>)
    requires v in group && w in group && group[v].writes && group[w].writes
    requires group[v].actor == group[w].actor && v != w
    ensures Reachable(c) && c.address == address && c.group == group
    ensures SameSeen(c, v, w) && !SameLists(ReplicaOf(c, v), ReplicaOf(c, w))
  {
    var x, y := Bytes([]), Bytes([0]);
    var a, b := Insert(Ident(0, group[v].actor), x), Insert(Ident(0, group[v].actor), y);
    c := NewCluster(address, group);
    ReachNew<M>(address, group);
    ExchangedEntries(group, v, w, x, y);
    ReachEntry(c, v, x);
    c := c.(entries := AppendAt(c.entries, v, x));
    ReachEntry(c, w, y);
    c := c.(entries := AppendAt(c.entries, w, y));
    ReachEntryHeard(c, v, b);
    c := c.(entries := Record(c.entries, v, b));
    ReachEntryHeard(c, w, a);
    c := c.(entries := Record(c.entries, w, a));
  }

  lemma SameAccess(a: DataState, b: DataState, action: Action, requester: PublicKey)
    requires a.Public? == b.Public?
    requires if a.Public? then SameLists(a.pub, b.pub) else SameLists(a.priv, b.priv)
    ensures a.CheckPermission(action, requester) == b.CheckPermission(action, requester)
  {
  }

  /** And they decide access alike, in networks of public Sequences. */
  lemma PublicAccessConverges(address: Address, group: Group, events: seq<Event<PublicMatrix>>,
                              p: ReplicaId, q: ReplicaId, action: Action, requester: PublicKey)
    requires OneWriterPerActor(group) && p in group && q in group
    ensures var c := RunCluster(address, group, events);
            SameSeen(c, p, q) ==>
              DataState.Public(ReplicaOf(c, p)).CheckPermission(action, requester) ==
              DataState.Public(ReplicaOf(c, q)).CheckPermission(action, requester)
  {
    var c := RunCluster(address, group, events);
    ReplicasConverge(address, group, events, p, q);
    if SameSeen(c, p, q) {
      SameAccess(DataState.Public(ReplicaOf(c, p)), DataState.Public(ReplicaOf(c, q)), action, requester);
    }
  }

  /** And of private ones. */
  lemma PrivateAccessConverges(address: Address, group: Group, events: seq<Event<PrivateMatrix>>,
                               p: ReplicaId, q: ReplicaId, action: Action, requester: PublicKey)
    requires OneWriterPerActor(group) && p in group && q in group
    ensures var c := RunCluster(address, group, events);
            SameSeen(c, p, q) ==>
              DataState.Private(ReplicaOf(c, p)).CheckPermission(action, requester) ==
              DataState.Private(ReplicaOf(c, q)).CheckPermission(action, requester)
  {
    var c := RunCluster(address, group, events);
    ReplicasConverge(address, group, events, p, q);
    if SameSeen(c, p, q) {
      SameAccess(DataState.Private(ReplicaOf(c, p)), DataState.Private(ReplicaOf(c, q)), action, requester);
    }
  }
}
