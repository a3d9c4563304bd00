/** The values a Sequence records and how they grant access (src/sequence/metadata.rs). */
module SequenceTypes {
  import opened Common

  type Entry = Bytes

  datatype Address = Public(name: XorName, tag: U64) | Private(name: XorName, tag: U64)

  datatype Action = Read | Append | ManagePermissions

  datatype Index = FromStart(index: nat) | FromEnd(index: nat)

  /** An owner, with the lengths of the other two lists when it was set. */
  datatype Owner = Owner(publicKey: PublicKey, entriesIndex: nat, permissionsIndex: nat)

  datatype User = Anyone | Key(key: PublicKey)

  datatype PubUserPermissions = PubUserPermissions(append: Option<bool>, managePermissions: Option<bool>) {
    function IsAllowed(action: Action): Option<bool> {
      match action
      case Read => Some(true)
      case Append => append
      case ManagePermissions => managePermissions
    }
  }

  datatype PrivUserPermissions = PrivUserPermissions(read: bool, append: bool, managePermissions: bool) {
    predicate IsAllowed(action: Action) {
      match action
      case Read => read
      case Append => append
      case ManagePermissions => managePermissions
    }
  }

  /** An entry of the permissions history, with the lengths of the other two lists when it was set. */
  datatype Perms<M> = Perms(permissions: M, entriesIndex: nat, ownersIndex: nat)

  type PublicMatrix = map<User, PubUserPermissions>

  type PrivateMatrix = map<PublicKey, PrivUserPermissions>

  type PublicPermissions = Perms<PublicMatrix>

  type PrivatePermissions = Perms<PrivateMatrix>

  function AllowedByUser(p: PublicPermissions, user: User, action: Action): Option<bool> {
    if user in p.permissions then p.permissions[user].IsAllowed(action) else None
  }

  function PublicAllows(p: PublicPermissions, requester: PublicKey, action: Action): Result<()> {
    var own := AllowedByUser(p, Key(requester), action);
    var decision := if own.Some? then own else AllowedByUser(p, Anyone, action);
    match decision
    case Some(true) => Ok(())
    case Some(false) => Err(AccessDenied)
    case None => Err(AccessDenied)
  }

  function PrivateAllows(p: PrivatePermissions, requester: PublicKey, action: Action): Result<()> {
    if requester in p.permissions then
      if p.permissions[requester].IsAllowed(action) then Ok(()) else Err(AccessDenied)
    else Err(AccessDenied)
  }
}
