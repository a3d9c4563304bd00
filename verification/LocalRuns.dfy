/** Runs of local calls on a new replica: the lengths recorded with owners and permissions rebuild the
    order in which they were set. */
module LocalRuns {
  import opened Common
  import opened LSeq
  import opened Convergence
  import opened SequenceTypes
  import opened SequenceCrdt
  import Sequence

  datatype LocalCall<M> = Append(entry: Entry) | SetOwner(owner: PublicKey) | SetPermissions(matrix: M)

  function Local<M>(r: Replica<M>, call: LocalCall<M>): Replica<M> {
    match call
    case Append(entry) => r.AppendEntry(entry).0
    case SetOwner(owner) => r.AppendOwner(owner).0
    case SetPermissions(matrix) => r.AppendPermissions(matrix).0
  }

  /** Runs the calls, the last one last. */
  function RunLocal<M>(r: Replica<M>, calls: seq<LocalCall<M>>): Replica<M> {
    if calls == [] then r else Local(RunLocal(r, calls[..|calls| - 1]), calls[|calls| - 1])
  }

  /** A change of owner or of permissions, as it is recorded. */
  datatype Change<M> = OwnerSet(owner: Owner) | PermissionsSet(perms: Perms<M>) {
    function EntriesIndex(): nat {
      if OwnerSet? then owner.entriesIndex else perms.entriesIndex
    }
  }

  /** The changes in the order in which they are made. */
  function Changes<M>(r: Replica<M>, calls: seq<LocalCall<M>>): seq<Change<M>> {
    if calls == [] then []
    else
      var before := RunLocal(r, calls[..|calls| - 1]);
      Changes(r, calls[..|calls| - 1]) +
      match calls[|calls| - 1]
      case Append(_) => []
      case SetOwner(owner) => [OwnerSet(SequenceTypes.Owner.Owner(owner, before.data.Len(), before.permissions.Len()))]
      case SetPermissions(matrix) => [PermissionsSet(Perms(matrix, before.data.Len(), before.owners.Len()))]
  }

  /** Puts the two histories in one order by looking only at what they record: the last owner comes last
      if it has seen all the permissions there are. */
  function Rebuild<M>(owners: seq<Owner>, perms: seq<Perms<M>>): seq<Change<M>>
    decreases |owners| + |perms|
  {
    if owners == [] && perms == [] then []
    else if perms == [] || (owners != [] && owners[|owners| - 1].permissionsIndex >= |perms|) then
      Rebuild(owners[..|owners| - 1], perms) + [OwnerSet(owners[|owners| - 1])]
    else
      Rebuild(owners, perms[..|perms| - 1]) + [PermissionsSet(perms[|perms| - 1])]
  }

  /** The owner at place `j` was set before the permissions at place `i`. */
  predicate OwnerFirst<M>(owners: seq<Owner>, perms: seq<Perms<M>>, j: nat, i: nat)
    requires j < |owners| && i < |perms|
  {
    owners[j].permissionsIndex <= i
  }

  /** The recorded lengths are those of one order: no length is above the current ones, owners and
      permissions agree on which of them came first, and entries only accumulate. */
  ghost predicate Chronological<M>(owners: seq<Owner>, perms: seq<Perms<M>>, entries: nat) {
    && (forall j | 0 <= j < |owners| :: owners[j].permissionsIndex <= |perms| && owners[j].entriesIndex <= entries)
    && (forall i | 0 <= i < |perms| :: perms[i].ownersIndex <= |owners| && perms[i].entriesIndex <= entries)
    && (forall i, j | 0 <= i < |perms| && 0 <= j < |owners| ::
          OwnerFirst(owners, perms, j, i) <==> perms[i].ownersIndex > j)
    && (forall j, j' | 0 <= j < j' < |owners| :: owners[j].permissionsIndex <= owners[j'].permissionsIndex
                                               && owners[j].entriesIndex <= owners[j'].entriesIndex)
    && (forall i, i' | 0 <= i < i' < |perms| :: perms[i].ownersIndex <= perms[i'].ownersIndex
                                              && perms[i].entriesIndex <= perms[i'].entriesIndex)
    && (forall i, j | 0 <= i < |perms| && 0 <= j < |owners| ::
          if OwnerFirst(owners, perms, j, i) then owners[j].entriesIndex <= perms[i].entriesIndex
          else perms[i].entriesIndex <= owners[j].entriesIndex)
  }

  function OwnersOf<M>(r: Replica<M>): seq<Owner> {
    Values(r.owners.elems)
  }

  function PermsOf<M>(r: Replica<M>): seq<Perms<M>> {
    Values(r.permissions.elems)
  }

  // ----- local calls append

  ghost predicate ReplicaSorted<M>(r: Replica<M>) {
    Sorted(r.data.elems) && Sorted(r.permissions.elems) && Sorted(r.owners.elems)
  }

  lemma {:induction false} ApplyAtEnd<T>(s: seq<Elem<T>>, op: Op<T>)
    requires op.Insert? && forall i | 0 <= i < |s| :: Before(s[i].id, op.id)
    ensures ApplyOp(s, op) == s + [Elem(op.id, op.value)]
  {
    if s != [] {
      ApplyAtEnd(s[1..], op);
    }
  }

  lemma {:induction false} ValuesOfSnoc<T>(s: seq<Elem<T>>, e: Elem<T>)
    ensures Values(s + [e]) == Values(s) + [e.value]
  {
  }

  /** Appending puts the value at the very end, and keeps the list sorted. */
  lemma AppendAtEnd<T>(list: LSeq<T>, value: T)
    requires Sorted(list.elems)
    ensures var (after, op) := list.Append(value);
            && Sorted(after.elems) && after.actor == list.actor
            && Values(after.elems) == Values(list.elems) + [value]
            && after.Last() == Some(value)
  {
    var op := list.Append(value).1;
    MintIsAbove(list.elems, list.actor);
    ApplyAtEnd(list.elems, op);
    ValuesOfSnoc(list.elems, Elem(op.id, value));
  }

  lemma LocalEffect<M>(r: Replica<M>, call: LocalCall<M>)
    requires ReplicaSorted(r)
    ensures ReplicaSorted(Local(r, call))
    ensures var t := Local(r, call);
            match call
            case Append(entry) =>
              && Values(t.data.elems) == Values(r.data.elems) + [entry]
              && OwnersOf(t) == OwnersOf(r) && PermsOf(t) == PermsOf(r)
            case SetOwner(owner) =>
              && t.data == r.data && PermsOf(t) == PermsOf(r)
              && OwnersOf(t) == OwnersOf(r) + [SequenceTypes.Owner.Owner(owner, r.data.Len(), r.permissions.Len())]
            case SetPermissions(matrix) =>
              && t.data == r.data && OwnersOf(t) == OwnersOf(r)
              && PermsOf(t) == PermsOf(r) + [Perms(matrix, r.data.Len(), r.owners.Len())]
  {
    match call
    case Append(entry) => AppendAtEnd(r.data, entry);
    case SetOwner(owner) =>
      AppendAtEnd(r.owners, SequenceTypes.Owner.Owner(owner, r.data.Len(), r.permissions.Len()));
    case SetPermissions(matrix) =>
      AppendAtEnd(r.permissions, Perms(matrix, r.data.Len(), r.owners.Len()));
  }

  /** The local write operations of a public or private Sequence are these calls; the permissions call of
      the other kind is refused and changes nothing. */
  lemma DataCallsAreLocal(pub: Replica<PublicMatrix>, priv: Replica<PrivateMatrix>, entry: Entry, owner: PublicKey,
                          matrix: PublicMatrix, privMatrix: PrivateMatrix)
    ensures Sequence.Step(Sequence.DataState.Public(pub), Sequence.Append(entry)) ==
        (Sequence.DataState.Public(Local(pub, LocalCall.Append(entry))), Ok(()))
    ensures Sequence.Step(Sequence.DataState.Private(priv), Sequence.Append(entry)) ==
        (Sequence.DataState.Private(Local(priv, LocalCall.Append(entry))), Ok(()))
    ensures Sequence.Step(Sequence.DataState.Public(pub), Sequence.SetOwner(owner)) ==
        (Sequence.DataState.Public(Local(pub, SetOwner(owner))), Ok(()))
    ensures Sequence.Step(Sequence.DataState.Private(priv), Sequence.SetOwner(owner)) ==
        (Sequence.DataState.Private(Local(priv, SetOwner(owner))), Ok(()))
    ensures Sequence.Step(Sequence.DataState.Public(pub), Sequence.SetPubPermissions(matrix)) ==
        (Sequence.DataState.Public(Local(pub, SetPermissions(matrix))), Ok(()))
    ensures Sequence.Step(Sequence.DataState.Private(priv), Sequence.SetPrivatePermissions(privMatrix)) ==
        (Sequence.DataState.Private(Local(priv, SetPermissions(privMatrix))), Ok(()))
    ensures Sequence.Step(Sequence.DataState.Public(pub), Sequence.SetPrivatePermissions(privMatrix)) ==
        (Sequence.DataState.Public(pub), Err(InvalidOperation))
    ensures Sequence.Step(Sequence.DataState.Private(priv), Sequence.SetPubPermissions(matrix)) ==
        (Sequence.DataState.Private(priv), Err(InvalidOperation))
  {
  }

  // ----- the recorded lengths

  lemma ChronologicalEntry<M>(owners: seq<Owner>, perms: seq<Perms<M>>, entries: nat)
    requires Chronological(owners, perms, entries)
    ensures Chronological(owners, perms, entries + 1)
  {
  }

  lemma ChronologicalOwner<M>(owners: seq<Owner>, perms: seq<Perms<M>>, entries: nat, key: PublicKey)
    requires Chronological(owners, perms, entries)
    ensures Chronological(owners + [SequenceTypes.Owner.Owner(key, entries, |perms|)], perms, entries)
  {
    var more := owners + [SequenceTypes.Owner.Owner(key, entries, |perms|)];
    forall i, j | 0 <= i < |perms| && 0 <= j < |owners|
      ensures OwnerFirst(more, perms, j, i) == OwnerFirst(owners, perms, j, i)
    {
    }
  }

  lemma ChronologicalPerms<M>(owners: seq<Owner>, perms: seq<Perms<M>>, entries: nat, matrix: M)
    requires Chronological(owners, perms, entries)
    ensures Chronological(owners, perms + [Perms(matrix, entries, |owners|)], entries)
  {
    var more := perms + [Perms(matrix, entries, |owners|)];
    forall i, j | 0 <= i < |perms| && 0 <= j < |owners|
      ensures OwnerFirst(owners, more, j, i) == OwnerFirst(owners, perms, j, i)
    {
    }
  }

  /** In every run of local calls on a new replica the recorded lengths are those of one order. */
  lemma {:induction false} LocalRunIsChronological<M>(actor: PublicKey, address: Address, calls: seq<LocalCall<M>>)
    ensures var r := RunLocal(Fresh(actor, address), calls);
            ReplicaSorted(r) && Chronological(OwnersOf(r), PermsOf(r), r.data.Len())
    decreases |calls|
  {
    if calls != [] {
      var shorter, last := calls[..|calls| - 1], calls[|calls| - 1];
      var r := RunLocal(Fresh(actor, address), shorter);
      LocalRunIsChronological(actor, address, shorter);
      LocalEffect(r, last);
      match last
      case Append(_) => ChronologicalEntry(OwnersOf(r), PermsOf(r), r.data.Len());
      case SetOwner(owner) => ChronologicalOwner(OwnersOf(r), PermsOf(r), r.data.Len(), owner);
      case SetPermissions(matrix) => ChronologicalPerms(OwnersOf(r), PermsOf(r), r.data.Len(), matrix);
    }
  }

  lemma RebuildOwner<M>(owners: seq<Owner>, perms: seq<Perms<M>>, owner: Owner)
    requires owner.permissionsIndex == |perms|
    ensures Rebuild(owners + [owner], perms) == Rebuild(owners, perms) + [OwnerSet(owner)]
  {
    assert (owners + [owner])[..|owners|] == owners;
  }

  lemma RebuildPerms<M>(owners: seq<Owner>, perms: seq<Perms<M>>, last: Perms<M>)
    requires owners != [] ==> owners[|owners| - 1].permissionsIndex <= |perms|
    ensures Rebuild(owners, perms + [last]) == Rebuild(owners, perms) + [PermissionsSet(last)]
  {
    assert (perms + [last])[..|perms|] == perms;
  }

  /** And they determine that order: it can be rebuilt from the two histories alone. */
  lemma {:induction false} LocalRunIsRebuilt<M>(actor: PublicKey, address: Address, calls: seq<LocalCall<M>>)
    ensures var r := RunLocal(Fresh(actor, address), calls);
            Rebuild(OwnersOf(r), PermsOf(r)) == Changes(Fresh(actor, address), calls)
    decreases |calls|
  {
    if calls != [] {
      var shorter, last := calls[..|calls| - 1], calls[|calls| - 1];
      var r := RunLocal(Fresh(actor, address), shorter);
      LocalRunIsRebuilt(actor, address, shorter);
      LocalRunIsChronological(actor, address, shorter);
      LocalEffect(r, last);
      match last
      case Append(_) =>
      case SetOwner(owner) =>
        RebuildOwner(OwnersOf(r), PermsOf(r), SequenceTypes.Owner.Owner(owner, r.data.Len(), r.permissions.Len()));
      case SetPermissions(matrix) =>
        RebuildPerms(OwnersOf(r), PermsOf(r), Perms(matrix, r.data.Len(), r.owners.Len()));
    }
  }

  ghost predicate Accumulates<M>(changes: seq<Change<M>>, entries: nat) {
    && (forall i | 0 <= i < |changes| :: changes[i].EntriesIndex() <= entries)
    && (forall i, j | 0 <= i < j < |changes| :: changes[i].EntriesIndex() <= changes[j].EntriesIndex())
  }

  lemma AccumulatesMore<M>(changes: seq<Change<M>>, entries: nat, change: Change<M>)
    requires Accumulates(changes, entries)
    ensures Accumulates(changes, entries + 1)
    ensures change.EntriesIndex() == entries ==> Accumulates(changes + [change], entries)
  {
  }

  /** Along that order the recorded numbers of entries never decrease, nor exceed the current one. */
  lemma {:induction false} EntriesAccumulate<M>(actor: PublicKey, address: Address, calls: seq<LocalCall<M>>)
    ensures Accumulates(Changes(Fresh(actor, address), calls), RunLocal(Fresh(actor, address), calls).data.Len())
    decreases |calls|
  {
    if calls != [] {
      var shorter, last := calls[..|calls| - 1], calls[|calls| - 1];
      var r, t := RunLocal(Fresh(actor, address), shorter), RunLocal(Fresh(actor, address), calls);
      var before := Changes(Fresh(actor, address), shorter);
      EntriesAccumulate(actor, address, shorter);
      LocalRunIsChronological(actor, address, shorter);
      LocalEffect(r, last);
      match last
      case Append(entry) =>
        assert |Values(t.data.elems)| == |Values(r.data.elems)| + 1;
        AccumulatesMore(before, r.data.Len(), OwnerSet(SequenceTypes.Owner.Owner(actor, 0, 0)));
      case SetOwner(owner) =>
        var record := SequenceTypes.Owner.Owner(owner, r.data.Len(), r.permissions.Len());
        AccumulatesMore(before, r.data.Len(), OwnerSet(record));
      case SetPermissions(matrix) =>
        AccumulatesMore(before, r.data.Len(), PermissionsSet(Perms(matrix, r.data.Len(), r.owners.Len())));
    }
  }
}
