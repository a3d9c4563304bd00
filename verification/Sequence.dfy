/** Public and private Sequences: who may do what, and which operations are let through
    (src/sequence/mod.rs). */
module Sequence {
  import opened Common
  import opened LSeq
  import opened SequenceTypes
  import opened SequenceCrdt

  datatype DataState = Public(pub: Replica<PublicMatrix>) | Private(priv: Replica<PrivateMatrix>) {
    function CheckPermission(action: Action, requester: PublicKey): Result<()> {
      match this
      case Public(r) =>
        if action == Read then Ok(())
        else r.CheckPerm(requester, (p: PublicPermissions) => PublicAllows(p, requester, action))
      case Private(r) => r.CheckPerm(requester, (p: PrivatePermissions) => PrivateAllows(p, requester, action))
    }

    function Entries(): LSeq<Entry> {
      if Public? then pub.data else priv.data
    }

    function Owners(): LSeq<Owner> {
      if Public? then pub.owners else priv.owners
    }

    function WithEntries(list: LSeq<Entry>): DataState {
      match this
      case Public(r) => DataState.Public(r.(data := list))
      case Private(r) => DataState.Private(r.(data := list))
    }

    function WithOwners(list: LSeq<Owner>): DataState {
      match this
      case Public(r) => DataState.Public(r.(owners := list))
      case Private(r) => DataState.Private(r.(owners := list))
    }

    /** The value that a new owner is recorded as. */
    function OwnerRecord(owner: PublicKey): Owner {
      Owner.Owner(owner, Entries().Len(), if Public? then pub.permissions.Len() else priv.permissions.Len())
    }
  }

  datatype WriteOp<T> = WriteOp(address: Address, crdtOp: Op<T>)

  /** The write operations, local ones and those received from other replicas. */
  datatype Call =
    | Append(entry: Entry)
    | ApplyCrdtOp(entryOp: Op<Entry>)
    | SetOwner(owner: PublicKey)
    | ApplyCrdtOwnerOp(ownerOp: Op<Owner>)
    | SetPubPermissions(pubMatrix: PublicMatrix)
    | ApplyCrdtPubPermsOp(pubOp: Op<PublicPermissions>)
    | SetPrivatePermissions(privMatrix: PrivateMatrix)
    | ApplyCrdtPrivatePermsOp(privOp: Op<PrivatePermissions>)

  /** The new state, and whether the call was let through. */
  function Step(d: DataState, call: Call): (DataState, Result<()>) {
    match call
    case Append(entry) => (d.WithEntries(d.Entries().Append(entry).0), Ok(()))
    case ApplyCrdtOp(op) => (d.WithEntries(d.Entries().Apply(op)), Ok(()))
    case SetOwner(owner) => (d.WithOwners(d.Owners().Append(d.OwnerRecord(owner)).0), Ok(()))
    case ApplyCrdtOwnerOp(op) => (d.WithOwners(d.Owners().Apply(op)), Ok(()))
    case SetPubPermissions(matrix) =>
      if d.Public? then (DataState.Public(d.pub.AppendPermissions(matrix).0), Ok(())) else (d, Err(InvalidOperation))
    case ApplyCrdtPubPermsOp(op) =>
      if d.Public? && op.Insert? then (DataState.Public(d.pub.(permissions := d.pub.permissions.Apply(op))), Ok(()))
      else (d, Err(InvalidOperation))
    case SetPrivatePermissions(matrix) =>
      if d.Private? then (DataState.Private(d.priv.AppendPermissions(matrix).0), Ok(())) else (d, Err(InvalidOperation))
    case ApplyCrdtPrivatePermsOp(op) =>
      if d.Private? then (DataState.Private(d.priv.(permissions := d.priv.permissions.Apply(op))), Ok(()))
      else (d, Err(InvalidOperation))
  }

  /** The Sequence as an object of either variant. */
  datatype Data = Public(pub: SequenceCrdt<PublicMatrix>) | Private(priv: SequenceCrdt<PrivateMatrix>) {
    function Objects(): set<object> {
      match this
      case Public(d) => {d}
      case Private(d) => {d}
    }

    function View(): DataState
      reads Objects()
    {
      match this
      case Public(d) => DataState.Public(d.View())
      case Private(d) => DataState.Private(d.View())
    }

    method Append(entry: Entry) returns (op: WriteOp<Entry>)
      modifies Objects()
      ensures View() == Step(old(View()), Call.Append(entry)).0
      ensures match old(View())
              case Public(r) => View() == DataState.Public(r.(data := r.data.Apply(op.crdtOp)))
                                && op == WriteOp(r.address, NextEntry(r, entry))
              case Private(r) => View() == DataState.Private(r.(data := r.data.Apply(op.crdtOp)))
                                 && op == WriteOp(r.address, NextEntry(r, entry))
    {
      match this {
        case Public(d) =>
          var crdtOp := d.Append(entry);
          op := WriteOp(d.address, crdtOp);
        case Private(d) =>
          var crdtOp := d.Append(entry);
          op := WriteOp(d.address, crdtOp);
      }
    }

    method ApplyCrdtOp(op: Op<Entry>)
      modifies Objects()
      ensures View() == Step(old(View()), Call.ApplyCrdtOp(op)).0
      ensures match old(View())
              case Public(r) => View() == DataState.Public(r.(data := r.data.Apply(op)))
              case Private(r) => View() == DataState.Private(r.(data := r.data.Apply(op)))
    {
      match this {
        case Public(d) => d.ApplyCrdtOp(op);
        case Private(d) => d.ApplyCrdtOp(op);
      }
    }

    method SetOwner(owner: PublicKey) returns (op: WriteOp<Owner>)
      modifies Objects()
      ensures View() == Step(old(View()), Call.SetOwner(owner)).0
      ensures match old(View())
              case Public(r) => View() == DataState.Public(r.(owners := r.owners.Apply(op.crdtOp)))
                                && op == WriteOp(r.address, NextOwner(r, owner))
              case Private(r) => View() == DataState.Private(r.(owners := r.owners.Apply(op.crdtOp)))
                                 && op == WriteOp(r.address, NextOwner(r, owner))
    {
      match this {
        case Public(d) =>
          var crdtOp := d.AppendOwner(owner);
          op := WriteOp(d.address, crdtOp);
        case Private(d) =>
          var crdtOp := d.AppendOwner(owner);
          op := WriteOp(d.address, crdtOp);
      }
    }

    method ApplyCrdtOwnerOp(op: Op<Owner>)
      modifies Objects()
      ensures View() == Step(old(View()), Call.ApplyCrdtOwnerOp(op)).0
      ensures match old(View())
              case Public(r) => View() == DataState.Public(r.(owners := r.owners.Apply(op)))
              case Private(r) => View() == DataState.Private(r.(owners := r.owners.Apply(op)))
    {
      match this {
        case Public(d) => d.ApplyCrdtOwnerOp(op);
        case Private(d) => d.ApplyCrdtOwnerOp(op);
      }
    }

    method SetPubPermissions(matrix: PublicMatrix) returns (r: Result<WriteOp<PublicPermissions>>)
      modifies Objects()
      ensures View() == Step(old(View()), Call.SetPubPermissions(matrix)).0
      ensures match old(View())
              case Public(d) => r == Ok(WriteOp(d.address, NextPermissions(d, matrix)))
                            && View() == DataState.Public(d.(permissions := d.permissions.Apply(r.value.crdtOp)))
              case _ => r == Err(InvalidOperation) && View() == old(View())
    {
      match this {
        case Public(d) =>
          var crdtOp := d.AppendPermissions(Perms(matrix, d.data.Len(), d.owners.Len()));
          r := Ok(WriteOp(d.address, crdtOp));
        case Private(_) =>
          r := Err(InvalidOperation);
      }
    }

    method ApplyCrdtPubPermsOp(op: Op<PublicPermissions>) returns (r: Result<()>)
      modifies Objects()
      ensures (View(), r) == Step(old(View()), Call.ApplyCrdtPubPermsOp(op))
      ensures match (old(View()), op)
              case (Public(d), Insert(_, _)) =>
                r == Ok(()) && View() == DataState.Public(d.(permissions := d.permissions.Apply(op)))
              case _ => r == Err(InvalidOperation) && View() == old(View())
    {
      match (this, op) {
        case (Public(d), Insert(_, _)) =>
          d.ApplyCrdtPermsOp(op);
          r := Ok(());
        case _ =>
          r := Err(InvalidOperation);
      }
    }

    method SetPrivatePermissions(matrix: PrivateMatrix) returns (r: Result<WriteOp<PrivatePermissions>>)
      modifies Objects()
      ensures View() == Step(old(View()), Call.SetPrivatePermissions(matrix)).0
      ensures match old(View())
              case Private(d) => r == Ok(WriteOp(d.address, NextPermissions(d, matrix)))
                            && View() == DataState.Private(d.(permissions := d.permissions.Apply(r.value.crdtOp)))
              case _ => r == Err(InvalidOperation) && View() == old(View())
    {
      match this {
        case Private(d) =>
          var crdtOp := d.AppendPermissions(Perms(matrix, d.data.Len(), d.owners.Len()));
          r := Ok(WriteOp(d.address, crdtOp));
        case Public(_) =>
          r := Err(InvalidOperation);
      }
    }

    method ApplyCrdtPrivatePermsOp(op: Op<PrivatePermissions>) returns (r: Result<()>)
      modifies Objects()
      ensures (View(), r) == Step(old(View()), Call.ApplyCrdtPrivatePermsOp(op))
      ensures match old(View())
              case Private(d) => r == Ok(()) && View() == DataState.Private(d.(permissions := d.permissions.Apply(op)))
              case _ => r == Err(InvalidOperation) && View() == old(View())
    {
      match this {
        case Private(d) =>
          d.ApplyCrdtPermsOp(op);
          r := Ok(());
        case _ =>
          r := Err(InvalidOperation);
      }
    }
  }

  /** A new public Sequence. */
  method NewPub(actor: PublicKey, name: XorName, tag: U64) returns (d: Data)
    ensures fresh(d.Objects())
    ensures d.View() == DataState.Public(Fresh(actor, SequenceTypes.Address.Public(name, tag)))
  {
    var replica := new SequenceCrdt<PublicMatrix>(actor, SequenceTypes.Address.Public(name, tag));
    d := Data.Public(replica);
  }

  /** A new private Sequence. */
  method NewPrivate(actor: PublicKey, name: XorName, tag: U64) returns (d: Data)
    ensures fresh(d.Objects())
    ensures d.View() == DataState.Private(Fresh(actor, SequenceTypes.Address.Private(name, tag)))
  {
    var replica := new SequenceCrdt<PrivateMatrix>(actor, SequenceTypes.Address.Private(name, tag));
    d := Data.Private(replica);
  }

  // ----- access

  predicate IsLastOwner(owners: seq<Elem<Owner>>, requester: PublicKey) {
    owners != [] && owners[|owners| - 1].value.publicKey == requester
  }

  /** What a public record decides for a user, if it decides anything: reading is open to those it lists. */
  function Decision(matrix: PublicMatrix, user: User, action: Action): Option<bool> {
    if user !in matrix then None
    else if action == Read then Some(true)
    else if action == Action.Append then matrix[user].append
    else matrix[user].managePermissions
  }

  /** A public grant: a decision made for the user stands, otherwise the one made for anyone does. */
  predicate PublicGrant(matrix: PublicMatrix, requester: PublicKey, action: Action) {
    var own, anyone := Decision(matrix, Key(requester), action), Decision(matrix, Anyone, action);
    own == Some(true) || (own == None && anyone == Some(true))
  }

  predicate PrivateGrant(matrix: PrivateMatrix, requester: PublicKey, action: Action) {
    && requester in matrix
    && (action == Read ==> matrix[requester].read)
    && (action == Action.Append ==> matrix[requester].append)
    && (action == ManagePermissions ==> matrix[requester].managePermissions)
  }

  /** What one record of either kind allows. */
  lemma RecordsGrant(pub: PublicPermissions, priv: PrivatePermissions, requester: PublicKey, action: Action)
    ensures PublicAllows(pub, requester, action) ==
        if PublicGrant(pub.permissions, requester, action) then Ok(()) else Err(AccessDenied)
    ensures PrivateAllows(priv, requester, action) ==
        if PrivateGrant(priv.permissions, requester, action) then Ok(()) else Err(AccessDenied)
  {
  }

  /** The last record of a history grants it. */
  predicate LastGrants<M>(perms: seq<Elem<Perms<M>>>, grants: M -> bool) {
    perms != [] && grants(perms[|perms| - 1].value.permissions)
  }

  /** Access is decided by the kind of data, the last owner and the last permissions alone; it is never
      refused for want of an owner. */
  lemma AccessIsDecidedByLast(d: DataState, action: Action, requester: PublicKey)
    ensures d.CheckPermission(action, requester) ==
        if match d
           case Public(r) => action == Read || IsLastOwner(r.owners.elems, requester)
                             || LastGrants(r.permissions.elems, m => PublicGrant(m, requester, action))
           case Private(r) => IsLastOwner(r.owners.elems, requester)
                              || LastGrants(r.permissions.elems, m => PrivateGrant(m, requester, action))
        then Ok(()) else Err(AccessDenied)
  {
    match d
    case Public(r) =>
      if r.permissions.elems != [] {
        var last := r.permissions.elems[|r.permissions.elems| - 1].value;
        RecordsGrant(last, Perms(map[], 0, 0), requester, action);
      }
    case Private(r) =>
      if r.permissions.elems != [] {
        var last := r.permissions.elems[|r.permissions.elems| - 1].value;
        RecordsGrant(Perms(map[], 0, 0), last, requester, action);
      }
  }
}
