/** The values a Map holds and the operations it understands (src/map.rs). */
module MapTypes {
  import opened Common

  datatype Address = Unseq(name: XorName, tag: U64) | Seq(name: XorName, tag: U64)

  datatype Action = Read | Insert | Update | Delete | ManagePermissions

  datatype PermissionSet = PermissionSet(permissions: set<Action>) {
    predicate IsAllowed(action: Action) {
      action in permissions
    }
  }

  /** All the fields of a Map, as a value. */
  datatype MapState<V> = MapState(
    address: Address,
    data: map<Bytes, V>,
    permissions: map<PublicKey, PermissionSet>,
    version: U64,
    owner: PublicKey)
  {
    function CheckPermissions(action: Action, requester: PublicKey): Result<()> {
      if owner == requester then Ok(())
      else if requester !in permissions then Err(AccessDenied)
      else if permissions[requester].IsAllowed(action) then Ok(())
      else Err(AccessDenied)
    }

    predicate IsActionAllowed(requester: PublicKey, action: Action) {
      requester in permissions && permissions[requester].IsAllowed(action)
    }
  }

  datatype SeqValue = SeqValue(data: Bytes, version: U64)

  datatype SeqEntryAction = Ins(value: SeqValue) | Update(value: SeqValue) | Del(version: U64)

  datatype UnseqEntryAction = Ins(value: Bytes) | Update(value: Bytes) | Del

  /** What one action does to the entry stored under its key. */
  datatype Verdict<+V> = Write(value: V) | Erase | Refuse(error: EntryError)

  /** What tells the sequenced Map from the unsequenced one: how an action is judged against the
      stored entry, and which permission it needs. */
  datatype Flavour<!A, !V> = Flavour(rule: (A, Option<V>) -> Verdict<V>, kind: A -> Action)

  function SeqRule(action: SeqEntryAction, stored: Option<SeqValue>): Verdict<SeqValue> {
    match (action, stored)
    case (Ins(value), None) => Write(value)
    case (Ins(_), Some(current)) => Refuse(EntryError.EntryExists(LowByte(current.version)))
    case (_, None) => Refuse(EntryError.NoSuchEntry)
    case (Update(value), Some(current)) =>
      if value.version == Succ(current.version) then Write(value)
      else Refuse(EntryError.InvalidSuccessor(LowByte(current.version)))
    case (Del(version), Some(current)) =>
      if version == Succ(current.version) then Erase
      else Refuse(EntryError.InvalidSuccessor(LowByte(current.version)))
  }

  function SeqKind(action: SeqEntryAction): Action {
    match action
    case Ins(_) => Action.Insert
    case Update(_) => Action.Update
    case Del(_) => Action.Delete
  }

  function UnseqRule(action: UnseqEntryAction, stored: Option<Bytes>): Verdict<Bytes> {
    match (action, stored)
    case (Ins(value), None) => Write(value)
    case (Ins(_), Some(_)) => Refuse(EntryError.EntryExists(0))
    case (_, None) => Refuse(EntryError.NoSuchEntry)
    case (Update(value), Some(_)) => Write(value)
    case (Del, Some(_)) => Erase
  }

  function UnseqKind(action: UnseqEntryAction): Action {
    match action
    case Ins(_) => Action.Insert
    case Update(_) => Action.Update
    case Del => Action.Delete
  }

  const SEQ: Flavour<SeqEntryAction, SeqValue> := Flavour(SeqRule, SeqKind)

  const UNSEQ: Flavour<UnseqEntryAction, Bytes> := Flavour(UnseqRule, UnseqKind)

  /** The operations on a Map's shell: everything but its entries. */
  datatype ShellOp =
    | SetUserPermissions(user: PublicKey, permissions: PermissionSet, version: U64)
    | DelUserPermissions(user: PublicKey, version: U64)
    | DelUserPermissionsWithoutValidation(user: PublicKey, version: U64)
    | ChangeOwner(newOwner: PublicKey, version: U64)
    | ChangeOwnerWithoutValidation(newOwner: PublicKey, version: U64)
  {
    /** The operations that insist on the version following the stored one. */
    predicate IsValidated() {
      SetUserPermissions? || DelUserPermissions? || ChangeOwner?
    }
  }
}
