/** The simple meaning of a bulk mutation: every action is judged on its own against the original
    entries, and either all of them take effect or none does. */
module Transaction {
  import opened Common
  import opened MapTypes

  function Lookup<V>(data: map<Bytes, V>, key: Bytes): Option<V> {
    if key in data then Some(data[key]) else None
  }

  function Judge<A, V>(f: Flavour<A, V>, data: map<Bytes, V>, actions: map<Bytes, A>, key: Bytes): Verdict<V>
    requires key in actions
  {
    f.rule(actions[key], Lookup(data, key))
  }

  /** What becomes of one entry when the actions under `keys` take effect, refused ones being skipped. */
  function After<A, V>(f: Flavour<A, V>, data: map<Bytes, V>, actions: map<Bytes, A>, keys: set<Bytes>, key: Bytes)
    : Option<V>
  {
    if key in keys && key in actions then
      match Judge(f, data, actions, key)
      case Write(value) => Some(value)
      case Erase => None
      case Refuse(_) => Lookup(data, key)
    else Lookup(data, key)
  }

  /** The error owed to one key when the actions under `keys` are judged. */
  function Complaint<A, V>(f: Flavour<A, V>, data: map<Bytes, V>, actions: map<Bytes, A>, keys: set<Bytes>, key: Bytes)
    : Option<EntryError>
  {
    if key in keys && key in actions && Judge(f, data, actions, key).Refuse?
    then Some(Judge(f, data, actions, key).error)
    else None
  }

  /** The entries once the whole batch has taken effect. */
  function Effect<A, V>(f: Flavour<A, V>, data: map<Bytes, V>, actions: map<Bytes, A>): map<Bytes, V> {
    map k | k in data.Keys + actions.Keys && After(f, data, actions, actions.Keys, k).Some?
      :: After(f, data, actions, actions.Keys, k).value
  }

  /** The refused actions of a batch, each with its error. */
  function Errors<A, V>(f: Flavour<A, V>, data: map<Bytes, V>, actions: map<Bytes, A>): map<Bytes, EntryError> {
    map k | k in actions.Keys && Judge(f, data, actions, k).Refuse? :: Judge(f, data, actions, k).error
  }

  ghost predicate Permits<A, V>(f: Flavour<A, V>, s: MapState<V>, actions: map<Bytes, A>, requester: PublicKey) {
    forall k <- actions.Keys :: s.CheckPermissions(f.kind(actions[k]), requester).Ok?
  }

  ghost predicate AllValid<A, V>(f: Flavour<A, V>, data: map<Bytes, V>, actions: map<Bytes, A>) {
    forall k <- actions.Keys :: !Judge(f, data, actions, k).Refuse?
  }

  ghost predicate Accepts<A, V>(f: Flavour<A, V>, s: MapState<V>, actions: map<Bytes, A>, requester: PublicKey) {
    Permits(f, s, actions, requester) && AllValid(f, s.data, actions)
  }

  /** The new state and the reply. */
  ghost function Mutate<A, V>(f: Flavour<A, V>, s: MapState<V>, actions: map<Bytes, A>, requester: PublicKey)
    : (MapState<V>, Result<()>)
  {
    if !Permits(f, s, actions, requester) then (s, Err(AccessDenied))
    else if !AllValid(f, s.data, actions) then
      (s, Err(InvalidEntryActions(Errors(f, s.data, actions))))
    else (s.(data := Effect(f, s.data, actions)), Ok(()))
  }

  /** The working copy and the collected errors once the actions under `done` have been visited. */
  ghost predicate Staged<A(!new), V(!new)>(f: Flavour<A, V>, data: map<Bytes, V>, actions: map<Bytes, A>,
                                           done: set<Bytes>, newData: map<Bytes, V>, errors: map<Bytes, EntryError>)
  {
    forall k :: StagedAt(f, data, actions, done, newData, errors, k)
  }

  ghost predicate StagedAt<A, V>(f: Flavour<A, V>, data: map<Bytes, V>, actions: map<Bytes, A>, done: set<Bytes>,
                                 newData: map<Bytes, V>, errors: map<Bytes, EntryError>, key: Bytes)
  {
    && Lookup(newData, key) == After(f, data, actions, done, key)
    && Lookup(errors, key) == Complaint(f, data, actions, done, key)
  }

  lemma StagedStart<A(!new), V(!new)>(f: Flavour<A, V>, data: map<Bytes, V>, actions: map<Bytes, A>)
    ensures Staged(f, data, actions, {}, data, map[])
  {
  }

  /** Visiting one more key: the working copy still holds the original entry under it, so the verdict
      taken from the copy is the verdict on the original entries. */
  lemma StagedStep<A(!new), V(!new)>(f: Flavour<A, V>, data: map<Bytes, V>, actions: map<Bytes, A>, done: set<Bytes>,
                         newData: map<Bytes, V>, errors: map<Bytes, EntryError>, key: Bytes)
    requires Staged(f, data, actions, done, newData, errors)
    requires key in actions && key !in done
    ensures Lookup(newData, key) == Lookup(data, key)
    ensures match f.rule(actions[key], Lookup(newData, key))
            case Write(value) => Staged(f, data, actions, done + {key}, newData[key := value], errors)
            case Erase => Staged(f, data, actions, done + {key}, newData - {key}, errors)
            case Refuse(error) => Staged(f, data, actions, done + {key}, newData, errors[key := error])
  {
    assert StagedAt(f, data, actions, done, newData, errors, key);
    forall k | k != key
      ensures StagedAt(f, data, actions, done, newData, errors, k)
      ensures After(f, data, actions, done + {key}, k) == After(f, data, actions, done, k)
      ensures Complaint(f, data, actions, done + {key}, k) == Complaint(f, data, actions, done, k)
    {
    }
  }

  lemma SameLookups<V>(a: map<Bytes, V>, b: map<Bytes, V>)
    requires forall k :: Lookup(a, k) == Lookup(b, k)
    ensures a == b
  {
    assert forall k :: k in a <==> Lookup(a, k).Some?;
    assert forall k :: k in b <==> Lookup(b, k).Some?;
    assert a.Keys == b.Keys;
    forall k <- a.Keys ensures a[k] == b[k] {
      assert Lookup(a, k) == Lookup(b, k);
    }
  }

  /** Once every action has been visited, the working copy is the effect of the batch. */
  lemma StagedEnd<A(!new), V(!new)>(f: Flavour<A, V>, data: map<Bytes, V>, actions: map<Bytes, A>,
                        newData: map<Bytes, V>, errors: map<Bytes, EntryError>)
    requires Staged(f, data, actions, actions.Keys, newData, errors)
    ensures newData == Effect(f, data, actions)
    ensures errors == Errors(f, data, actions)
    ensures errors == map[] <==> AllValid(f, data, actions)
  {
    var effect, complaints := Effect(f, data, actions), Errors(f, data, actions);
    forall k
      ensures Lookup(newData, k) == Lookup(effect, k)
      ensures Lookup(errors, k) == Lookup(complaints, k)
    {
      assert StagedAt(f, data, actions, actions.Keys, newData, errors, k);
    }
    SameLookups(newData, effect);
    SameLookups(errors, complaints);
    if errors != map[] {
      var k :| k in errors;
      assert Judge(f, data, actions, k).Refuse?;
    }
    if !AllValid(f, data, actions) {
      var k :| k in actions.Keys && Judge(f, data, actions, k).Refuse?;
      assert k in errors;
    }
  }
}
