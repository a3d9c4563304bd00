/** The protocol on a Map's shell: each operation, when it is accepted and what it changes (src/map.rs). */
module MapShell {
  import opened Common
  import opened MapTypes

  /** The two ways in which a shell operation replies. */
  datatype Reply = Replied(r: Result<()>) | Flag(b: bool) {
    predicate Accepted() {
      this == Replied(Ok(())) || this == Flag(true)
    }
  }

  /** The new state and the reply. */
  function Shell<V>(s: MapState<V>, op: ShellOp): (MapState<V>, Reply) {
    match op
    case SetUserPermissions(user, permissions, version) =>
      if version != Succ(s.version) then (s, Replied(Err(Error.InvalidSuccessor(s.version))))
      else (s.(permissions := s.permissions[user := permissions], version := version), Replied(Ok(())))
    case DelUserPermissions(user, version) =>
      if version != Succ(s.version) then (s, Replied(Err(Error.InvalidSuccessor(s.version))))
      else if user !in s.permissions then (s, Replied(Err(NoSuchKey)))
      else (s.(permissions := s.permissions - {user}, version := version), Replied(Ok(())))
    case DelUserPermissionsWithoutValidation(user, version) =>
      if version <= s.version then (s, Flag(false))
      else (s.(permissions := s.permissions - {user}, version := version), Flag(true))
    case ChangeOwner(newOwner, version) =>
      if version != Succ(s.version) then (s, Replied(Err(Error.InvalidSuccessor(s.version))))
      else (s.(owner := newOwner, version := version), Replied(Ok(())))
    case ChangeOwnerWithoutValidation(newOwner, version) =>
      if version <= s.version then (s, Flag(false))
      else (s.(owner := newOwner, version := version), Flag(true))
  }
}
