/** The lengths that records carry, in a network of replicas: an owner and an entry of the permissions
    history record how long the two other lists were where they were made. */
module ClusterRecords {
  import opened Common
  import opened LSeq
  import opened Convergence
  import opened SequenceTypes
  import opened SequenceCrdt
  import opened Histories
  import opened Cluster
  import LocalRuns

  /** How long the list is at each replica. */
  function Lengths<T>(n: Net<T>): ReplicaId -> nat {
    r => n.lists(r).Len()
  }

  /** No replica's list has got shorter. */
  ghost predicate Grown(now: ReplicaId -> nat, later: ReplicaId -> nat, g: Group) {
    forall r | r in g :: now(r) <= later(r)
  }

  /** The lengths recorded by the records of one actor go up with their ranks. */
  ghost predicate InOrder<T(!new)>(pool: set<Op<T>>, stamp: T -> nat) {
    forall x, y | x in pool && y in pool && x.Insert? && y.Insert? ::
      x.id.actor == y.id.actor && x.id.rank <= y.id.rank ==> stamp(x.value) <= stamp(y.value)
  }

  /** They are not beyond what the list has reached at the writer of that actor. */
  ghost predicate Reached<T(!new)>(pool: set<Op<T>>, g: Group, stamp: T -> nat, now: ReplicaId -> nat) {
    forall x, w | x in pool && x.Insert? && WritesAs(g, w, x.id.actor) :: stamp(x.value) <= now(w)
  }

  ghost predicate Stamped<T(!new)>(pool: set<Op<T>>, g: Group, stamp: T -> nat, now: ReplicaId -> nat) {
    InOrder(pool, stamp) && Reached(pool, g, stamp, now)
  }

  lemma StampedLater<T(!new)>(pool: set<Op<T>>, g: Group, stamp: T -> nat, now: ReplicaId -> nat,
                              later: ReplicaId -> nat)
    requires Stamped(pool, g, stamp, now) && Grown(now, later, g)
    ensures Stamped(pool, g, stamp, later)
  {
  }

  /** What an actor has minted ranks below what it mints next. */
  lemma OwnRankBelowMint<T(!new)>(n: Net<T>, g: Group, r: ReplicaId, own: Op<T>)
    requires Inv(n, g) && OneWriterPerActor(g) && own in n.pool && WritesAs(g, r, own.id.actor)
    ensures own.id.rank < Mint(n.lists(r).elems, g[r].actor).rank
  {
    assert AtReplica(n, r) && Traced(n, g, own);
    var w :| MadeAt(n, g, own, w);
    assert w == r;
    var s := n.lists(r).elems;
    FoundAt(s, own.id);
    var i :| 0 <= i < |s| && s[i].id == own.id;
    assert i < |s| - 1 ==> Before(s[i].id, s[|s| - 1].id);
  }

  /** A record made now is stamped with the length now. */
  lemma StampedAppend<T(!new)>(n: Net<T>, g: Group, r: ReplicaId, value: T, stamp: T -> nat,
                               now: ReplicaId -> nat)
    requires Inv(n, g) && OneWriterPerActor(g) && r in g && g[r].writes
    requires Stamped(n.pool, g, stamp, now) && stamp(value) == now(r)
    ensures Stamped(AppendAt(n, r, value).pool, g, stamp, now)
  {
    var op := n.lists(r).Append(value).1;
    var pool := AppendAt(n, r, value).pool;
    assert WritesAs(g, r, op.id.actor);
    assert pool == n.pool + {op};
    forall x | x in n.pool && x.id.actor == g[r].actor
      ensures x.id.rank < op.id.rank && stamp(x.value) <= now(r)
    {
      assert WritesAs(g, r, x.id.actor);
      OwnRankBelowMint(n, g, r, x);
    }
  }

  lemma RecordGrows<T(!new)>(n: Net<T>, g: Group, r: ReplicaId, op: Op<T>)
    requires Inv(n, g) && r in g && op.Insert?
    ensures Grown(Lengths(n), Lengths(Record(n, r, op)), g)
    ensures op in n.pool ==> Record(n, r, op).pool == n.pool
  {
    assert AtReplica(n, r);
    HistoryKept(n.lists(r).elems, op);
    if op in n.pool {
      assert n.pool + {op} == n.pool;
    }
  }

  // ----- the four recorded lengths

  function OwnerEntries(o: Owner): nat {
    o.entriesIndex
  }

  function OwnerPermissions(o: Owner): nat {
    o.permissionsIndex
  }

  function PermsEntries<M>(p: Perms<M>): nat {
    p.entriesIndex
  }

  function PermsOwners<M>(p: Perms<M>): nat {
    p.ownersIndex
  }

  ghost predicate Recorded<M(!new)>(c: Cluster<M>) {
    && Stamped(c.owners.pool, c.group, OwnerEntries, Lengths(c.entries))
    && Stamped(c.owners.pool, c.group, OwnerPermissions, Lengths(c.permissions))
    && Stamped(c.permissions.pool, c.group, PermsEntries, Lengths(c.entries))
    && Stamped(c.permissions.pool, c.group, PermsOwners, Lengths(c.owners))
  }

  lemma EntriesGrow<M(!new)>(c: Cluster<M>, entries: Net<Entry>)
    requires Recorded(c) && Grown(Lengths(c.entries), Lengths(entries), c.group)
    ensures Recorded(c.(entries := entries))
  {
    StampedLater(c.owners.pool, c.group, OwnerEntries, Lengths(c.entries), Lengths(entries));
    StampedLater(c.permissions.pool, c.group, PermsEntries, Lengths(c.entries), Lengths(entries));
  }

  lemma OwnersGrow<M(!new)>(c: Cluster<M>, owners: Net<Owner>)
    requires Recorded(c) && Grown(Lengths(c.owners), Lengths(owners), c.group)
    requires Stamped(owners.pool, c.group, OwnerEntries, Lengths(c.entries))
    requires Stamped(owners.pool, c.group, OwnerPermissions, Lengths(c.permissions))
    ensures Recorded(c.(owners := owners))
  {
    StampedLater(c.permissions.pool, c.group, PermsOwners, Lengths(c.owners), Lengths(owners));
  }

  lemma PermissionsGrow<M(!new)>(c: Cluster<M>, permissions: Net<Perms<M>>)
    requires Recorded(c) && Grown(Lengths(c.permissions), Lengths(permissions), c.group)
    requires Stamped(permissions.pool, c.group, PermsEntries, Lengths(c.entries))
    requires Stamped(permissions.pool, c.group, PermsOwners, Lengths(c.owners))
    ensures Recorded(c.(permissions := permissions))
  {
    StampedLater(c.owners.pool, c.group, OwnerPermissions, Lengths(c.permissions), Lengths(permissions));
  }

  lemma OwnerKeepsRecorded<M(!new)>(c: Cluster<M>, at: ReplicaId, owner: PublicKey)
    requires ClusterInv(c) && Recorded(c)
    requires OneWriterPerActor(c.group) && at in c.group && c.group[at].writes
    ensures Recorded(c.(owners := AppendAt(c.owners, at, OwnerRecord(c, at, owner))))
  {
    var record := OwnerRecord(c, at, owner);
    RecordGrows(c.owners, c.group, at, c.owners.lists(at).Append(record).1);
    StampedAppend(c.owners, c.group, at, record, OwnerEntries, Lengths(c.entries));
    StampedAppend(c.owners, c.group, at, record, OwnerPermissions, Lengths(c.permissions));
    OwnersGrow(c, AppendAt(c.owners, at, record));
  }

  lemma PermissionsKeepRecorded<M(!new)>(c: Cluster<M>, at: ReplicaId, matrix: M)
    requires ClusterInv(c) && Recorded(c)
    requires OneWriterPerActor(c.group) && at in c.group && c.group[at].writes
    ensures Recorded(c.(permissions := AppendAt(c.permissions, at, PermsRecord(c, at, matrix))))
  {
    var record := PermsRecord(c, at, matrix);
    RecordGrows(c.permissions, c.group, at, c.permissions.lists(at).Append(record).1);
    StampedAppend(c.permissions, c.group, at, record, PermsEntries, Lengths(c.entries));
    StampedAppend(c.permissions, c.group, at, record, PermsOwners, Lengths(c.owners));
    PermissionsGrow(c, AppendAt(c.permissions, at, record));
  }

  lemma LocalKeepsRecorded<M(!new)>(c: Cluster<M>, at: ReplicaId, call: LocalRuns.LocalCall<M>)
    requires ClusterInv(c) && Recorded(c)
    requires OneWriterPerActor(c.group) && at in c.group && c.group[at].writes
    ensures Recorded(HappenLocal(c, at, call))
  {
    match call
    case Append(entry) =>
      RecordGrows(c.entries, c.group, at, c.entries.lists(at).Append(entry).1);
      EntriesGrow(c, AppendAt(c.entries, at, entry));
    case SetOwner(owner) => OwnerKeepsRecorded(c, at, owner);
    case SetPermissions(matrix) => PermissionsKeepRecorded(c, at, matrix);
  }

  lemma EventKeepsRecorded<M(!new)>(c: Cluster<M>, e: Event<M>)
    requires ClusterInv(c) && Recorded(c) && OneWriterPerActor(c.group)
    ensures Recorded(Happen(c, e))
  {
    if TakesPlace(c, e) {
      match e
      case Local(at, call) => LocalKeepsRecorded(c, at, call);
      case DeliverEntry(at, op) =>
        RecordGrows(c.entries, c.group, at, op);
        EntriesGrow(c, Record(c.entries, at, op));
      case DeliverPermissions(at, op) =>
        RecordGrows(c.permissions, c.group, at, op);
        PermissionsGrow(c, Record(c.permissions, at, op));
      case DeliverOwner(at, op) =>
        RecordGrows(c.owners, c.group, at, op);
        OwnersGrow(c, Record(c.owners, at, op));
    }
  }

  /** In every run, while no two writers share an actor, the lengths that one actor records never decrease,
      and never exceed what its writer holds of that list. */
  lemma {:induction false} RunIsRecorded<M(!new)>(address: Address, group: Group, events: seq<Event<M>>)
    requires OneWriterPerActor(group)
    ensures Recorded(RunCluster(address, group, events))
  {
    if events != [] {
      var before := RunCluster(address, group, events[..|events| - 1]);
      RunIsRecorded(address, group, events[..|events| - 1]);
      RunKeepsInv(address, group, events[..|events| - 1]);
      EventKeepsRecorded(before, events[|events| - 1]);
    }
  }

  // ----- what a list holds was broadcast

  ghost function Inserted<T(!new)>(s: seq<Elem<T>>): set<Op<T>> {
    if s == [] then {} else {Insert(s[0].id, s[0].value)} + Inserted(s[1..])
  }

  lemma {:induction false} InsertedOnce<T(!new)>(s: seq<Elem<T>>)
    requires Sorted(s)
    ensures |Inserted(s)| == |s|
    ensures forall op | op in Inserted(s) :: op.Insert? && Find(s, op.id) == Some(op.value)
  {
    if s != [] {
      InsertedOnce(s[1..]);
      BelowHeadNotFound(s[1..], s[0].id);
    }
  }

  lemma Subset<T>(a: set<T>, b: set<T>)
    requires a <= b
    ensures |a| <= |b|
  {
    assert b == a + (b - a);
  }

  /** No replica holds more than was broadcast. */
  lemma NoLongerThanPool<T(!new)>(n: Net<T>, g: Group)
    requires Inv(n, g)
    ensures forall r | r in g :: Lengths(n)(r) <= |n.pool|
  {
    forall r | r in g ensures n.lists(r).Len() <= |n.pool| {
      assert AtReplica(n, r);
      InsertedOnce(n.lists(r).elems);
      Subset(Inserted(n.lists(r).elems), n.pool);
    }
  }

  // ----- at the replicas

  /** Among the records of one actor in a list, later ones never carry a smaller length, and no record
      carries one above the limit. */
  ghost predicate InTurn<T(!new)>(s: seq<Elem<T>>, stamp: T -> nat, limit: nat) {
    && (forall i, j | 0 <= i < j < |s| && s[i].id.actor == s[j].id.actor :: stamp(s[i].value) <= stamp(s[j].value))
    && (forall i | 0 <= i < |s| :: stamp(s[i].value) <= limit)
  }

  lemma WithinLimit<T(!new)>(n: Net<T>, g: Group, op: Op<T>, stamp: T -> nat, now: ReplicaId -> nat, limit: nat)
    requires Traced(n, g, op) && op in n.pool && op.Insert?
    requires Reached(n.pool, g, stamp, now) && forall r | r in g :: now(r) <= limit
    ensures stamp(op.value) <= limit
  {
    var w :| MadeAt(n, g, op, w);
    assert stamp(op.value) <= now(w) <= limit;
  }

  lemma HeldWasBroadcast<T(!new)>(n: Net<T>, g: Group, r: ReplicaId, i: nat)
    requires Inv(n, g) && r in g && i < n.lists(r).Len()
    ensures var e := n.lists(r).elems[i];
            Insert(e.id, e.value) in n.pool && Traced(n, g, Insert(e.id, e.value))
  {
    assert AtReplica(n, r);
    FoundAt(n.lists(r).elems, n.lists(r).elems[i].id);
  }

  lemma HeldInTurn<T(!new)>(n: Net<T>, g: Group, r: ReplicaId, stamp: T -> nat, now: ReplicaId -> nat, limit: nat)
    requires Inv(n, g) && r in g && Stamped(n.pool, g, stamp, now)
    requires forall w | w in g :: now(w) <= limit
    ensures InTurn(n.lists(r).elems, stamp, limit)
  {
    var s := n.lists(r).elems;
    forall i | 0 <= i < |s|
      ensures Insert(s[i].id, s[i].value) in n.pool && stamp(s[i].value) <= limit
    {
      HeldWasBroadcast(n, g, r, i);
      WithinLimit(n, g, Insert(s[i].id, s[i].value), stamp, now, limit);
    }
    forall i, j | 0 <= i < j < |s| && s[i].id.actor == s[j].id.actor
      ensures stamp(s[i].value) <= stamp(s[j].value)
    {
      assert AtReplica(n, r);
      assert Before(s[i].id, s[j].id);
      assert Insert(s[i].id, s[i].value) in n.pool && Insert(s[j].id, s[j].value) in n.pool;
    }
  }

  /** At every replica in every such run: whatever order operations arrived in, each actor's records stand
      in the order in which the lists of its writer grew, and no record counts more than was ever
      broadcast. */
  lemma RecordsInTurn<M(!new)>(address: Address, group: Group, events: seq<Event<M>>, r: ReplicaId)
    requires OneWriterPerActor(group) && r in group
    ensures var c := RunCluster(address, group, events);
            && InTurn(c.owners.lists(r).elems, OwnerEntries, |c.entries.pool|)
            && InTurn(c.owners.lists(r).elems, OwnerPermissions, |c.permissions.pool|)
            && InTurn(c.permissions.lists(r).elems, PermsEntries, |c.entries.pool|)
            && InTurn(c.permissions.lists(r).elems, PermsOwners, |c.owners.pool|)
  {
    var c := RunCluster(address, group, events);
    RunKeepsInv(address, group, events);
    RunIsRecorded(address, group, events);
    NoLongerThanPool(c.entries, group);
    NoLongerThanPool(c.permissions, group);
    NoLongerThanPool(c.owners, group);
    HeldInTurn(c.owners, group, r, OwnerEntries, Lengths(c.entries), |c.entries.pool|);
    HeldInTurn(c.owners, group, r, OwnerPermissions, Lengths(c.permissions), |c.permissions.pool|);
    HeldInTurn(c.permissions, group, r, PermsEntries, Lengths(c.entries), |c.entries.pool|);
    HeldInTurn(c.permissions, group, r, PermsOwners, Lengths(c.owners), |c.owners.pool|);
  }
}
