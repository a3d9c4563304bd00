/** The Map as it is stored: an object whose shell and entries its operations update in place.
    One class serves both flavours, as one macro does in the source. */
module MapData {
  import opened Common
  import opened MapTypes
  import opened Transaction
  import opened MapShell

  class MapData<V> {
    var address: Address
    var data: map<Bytes, V>
    var permissions: map<PublicKey, PermissionSet>
    var version: U64
    var owner: PublicKey

    function View(): MapState<V>
      reads this
    {
      MapState(address, data, permissions, version, owner)
    }

    /** The part that both flavours share; see `NewSeqWithData` and `NewUnseqWithData`. */
    constructor NewWithData(address: Address, data: map<Bytes, V>, permissions: map<PublicKey, PermissionSet>,
                            owner: PublicKey)
      ensures View() == MapState(address, data, permissions, 0, owner)
    {
      this.address := address;
      this.data := data;
      this.permissions := permissions;
      this.version := 0;
      this.owner := owner;
    }

    method SetUserPermissions(user: PublicKey, permissions: PermissionSet, version: U64) returns (r: Result<()>)
      modifies this`permissions, this`version
      ensures Shell(old(View()), ShellOp.SetUserPermissions(user, permissions, version)) == (View(), Replied(r))
    {
      if version != Succ(this.version) {
        return Err(Error.InvalidSuccessor(this.version));
      }
      this.permissions := this.permissions[user := permissions];
      this.version := version;
      r := Ok(());
    }

    method DelUserPermissions(user: PublicKey, version: U64) returns (r: Result<()>)
      modifies this`permissions, this`version
      ensures Shell(old(View()), ShellOp.DelUserPermissions(user, version)) == (View(), Replied(r))
    {
      if version != Succ(this.version) {
        return Err(Error.InvalidSuccessor(this.version));
      }
      if user !in permissions {
        return Err(NoSuchKey);
      }
      permissions := permissions - {user};
      this.version := version;
      r := Ok(());
    }

    method DelUserPermissionsWithoutValidation(user: PublicKey, version: U64) returns (accepted: bool)
      modifies this`permissions, this`version
      ensures Shell(old(View()), ShellOp.DelUserPermissionsWithoutValidation(user, version)) == (View(), Flag(accepted))
    {
      if version <= this.version {
        return false;
      }
      permissions := permissions - {user};
      this.version := version;
      accepted := true;
    }

    method ChangeOwner(newOwner: PublicKey, version: U64) returns (r: Result<()>)
      modifies this`owner, this`version
      ensures Shell(old(View()), ShellOp.ChangeOwner(newOwner, version)) == (View(), Replied(r))
    {
      if version != Succ(this.version) {
        return Err(Error.InvalidSuccessor(this.version));
      }
      owner := newOwner;
      this.version := version;
      r := Ok(());
    }

    method ChangeOwnerWithoutValidation(newOwner: PublicKey, version: U64) returns (accepted: bool)
      modifies this`owner, this`version
      ensures Shell(old(View()), ShellOp.ChangeOwnerWithoutValidation(newOwner, version)) == (View(), Flag(accepted))
    {
      if version <= this.version {
        return false;
      }
      owner := newOwner;
      this.version := version;
      accepted := true;
    }
  }

  type SeqData = MapData<SeqValue>

  type UnseqData = MapData<Bytes>

  /** A new sequenced Map with entries and permissions. */
  method NewSeqWithData(name: XorName, tag: U64, data: map<Bytes, SeqValue>,
                        permissions: map<PublicKey, PermissionSet>, owner: PublicKey) returns (m: SeqData)
    ensures fresh(m)
    ensures m.View() == MapState(Address.Seq(name, tag), data, permissions, 0, owner)
  {
    m := new MapData.NewWithData(Address.Seq(name, tag), data, permissions, owner);
  }

  /** A new unsequenced Map with entries and permissions. */
  method NewUnseqWithData(name: XorName, tag: U64, data: map<Bytes, Bytes>,
                          permissions: map<PublicKey, PermissionSet>, owner: PublicKey) returns (m: UnseqData)
    ensures fresh(m)
    ensures m.View() == MapState(Address.Unseq(name, tag), data, permissions, 0, owner)
  {
    m := new MapData.NewWithData(Address.Unseq(name, tag), data, permissions, owner);
  }

  /** Inserts, updates and deletes are exactly the actions of that kind. */
  ghost predicate IsSplitSeq(actions: map<Bytes, SeqEntryAction>, insert: map<Bytes, SeqValue>,
                             update: map<Bytes, SeqValue>, delete: map<Bytes, U64>)
  {
    && (forall k :: k in insert <==> k in actions && actions[k].Ins?)
    && (forall k <- insert.Keys :: insert[k] == actions[k].value)
    && (forall k :: k in update <==> k in actions && actions[k].Update?)
    && (forall k <- update.Keys :: update[k] == actions[k].value)
    && (forall k :: k in delete <==> k in actions && actions[k].Del?)
    && (forall k <- delete.Keys :: delete[k] == actions[k].version)
  }

  /** Sorts a sequenced batch by kind of action. */
  method SplitSeq(actions: map<Bytes, SeqEntryAction>)
    returns (insert: map<Bytes, SeqValue>, update: map<Bytes, SeqValue>, delete: map<Bytes, U64>)
    ensures IsSplitSeq(actions, insert, update, delete)
  {
    insert, update, delete := map[], map[], map[];
    var todo := actions;
    while todo.Keys != {}
      invariant forall k <- todo.Keys :: k in actions && todo[k] == actions[k]
      invariant forall k :: k in insert <==> k in actions && k !in todo && actions[k].Ins?
      invariant forall k <- insert.Keys :: insert[k] == actions[k].value
      invariant forall k :: k in update <==> k in actions && k !in todo && actions[k].Update?
      invariant forall k <- update.Keys :: update[k] == actions[k].value
      invariant forall k :: k in delete <==> k in actions && k !in todo && actions[k].Del?
      invariant forall k <- delete.Keys :: delete[k] == actions[k].version
      decreases todo.Keys
    {
      var key :| key in todo.Keys;
      match todo[key] {
        case Ins(value) => insert := insert[key := value];
        case Update(value) => update := update[key := value];
        case Del(version) => delete := delete[key := version];
      }
      todo := todo - {key};
    }
  }

  /** Inserts, updates and deletes are exactly the actions of that kind. */
  ghost predicate IsSplitUnseq(actions: map<Bytes, UnseqEntryAction>, insert: map<Bytes, Bytes>,
                               update: map<Bytes, Bytes>, delete: set<Bytes>)
  {
    && (forall k :: k in insert <==> k in actions && actions[k].Ins?)
    && (forall k <- insert.Keys :: insert[k] == actions[k].value)
    && (forall k :: k in update <==> k in actions && actions[k].Update?)
    && (forall k <- update.Keys :: update[k] == actions[k].value)
    && (forall k :: k in delete <==> k in actions && actions[k].Del?)
  }

  /** Sorts an unsequenced batch by kind of action. */
  method SplitUnseq(actions: map<Bytes, UnseqEntryAction>)
    returns (insert: map<Bytes, Bytes>, update: map<Bytes, Bytes>, delete: set<Bytes>)
    ensures IsSplitUnseq(actions, insert, update, delete)
  {
    insert, update, delete := map[], map[], {};
    var todo := actions;
    while todo.Keys != {}
      invariant forall k <- todo.Keys :: k in actions && todo[k] == actions[k]
      invariant forall k :: k in insert <==> k in actions && k !in todo && actions[k].Ins?
      invariant forall k <- insert.Keys :: insert[k] == actions[k].value
      invariant forall k :: k in update <==> k in actions && k !in todo && actions[k].Update?
      invariant forall k <- update.Keys :: update[k] == actions[k].value
      invariant forall k :: k in delete <==> k in actions && k !in todo && actions[k].Del?
      decreases todo.Keys
    {
      var key :| key in todo.Keys;
      match todo[key] {
        case Ins(value) => insert := insert[key := value];
        case Update(value) => update := update[key := value];
        case Del => delete := delete + {key};
      }
      todo := todo - {key};
    }
  }

  /** The loop over the inserts, on a working copy and the errors collected so far. */
  method InsertAllSeq(data: map<Bytes, SeqValue>, errors: map<Bytes, EntryError>, insert: map<Bytes, SeqValue>,
                      ghost original: map<Bytes, SeqValue>, ghost actions: map<Bytes, SeqEntryAction>,
                      ghost visited: set<Bytes>)
    returns (newData: map<Bytes, SeqValue>, newErrors: map<Bytes, EntryError>)
    requires Staged(SEQ, original, actions, visited, data, errors)
    requires forall k <- insert.Keys :: k in actions && k !in visited && actions[k] == SeqEntryAction.Ins(insert[k])
    ensures Staged(SEQ, original, actions, visited + insert.Keys, newData, newErrors)
  {
    newData, newErrors := data, errors;
    ghost var done := visited;
    var inserts := insert;
    while inserts.Keys != {}
      invariant forall k <- inserts.Keys :: k in insert && inserts[k] == insert[k]
      invariant done == visited + (insert.Keys - inserts.Keys)
      invariant Staged(SEQ, original, actions, done, newData, newErrors)
      decreases inserts.Keys
    {
      var key :| key in inserts.Keys;
      StagedStep(SEQ, original, actions, done, newData, newErrors, key);
      if key in newData {
        newErrors := newErrors[key := EntryError.EntryExists(LowByte(newData[key].version))];
      } else {
        newData := newData[key := inserts[key]];
      }
      inserts := inserts - {key};
      done := done + {key};
    }
    assert done == visited + insert.Keys;
  }

  /** The loop over the updates, on a working copy and the errors collected so far. */
  method UpdateAllSeq(data: map<Bytes, SeqValue>, errors: map<Bytes, EntryError>, update: map<Bytes, SeqValue>,
                      ghost original: map<Bytes, SeqValue>, ghost actions: map<Bytes, SeqEntryAction>,
                      ghost visited: set<Bytes>)
    returns (newData: map<Bytes, SeqValue>, newErrors: map<Bytes, EntryError>)
    requires Staged(SEQ, original, actions, visited, data, errors)
    requires forall k <- update.Keys :: k in actions && k !in visited && actions[k] == SeqEntryAction.Update(update[k])
    ensures Staged(SEQ, original, actions, visited + update.Keys, newData, newErrors)
  {
    newData, newErrors := data, errors;
    ghost var done := visited;
    var updates := update;
    while updates.Keys != {}
      invariant forall k <- updates.Keys :: k in update && updates[k] == update[k]
      invariant done == visited + (update.Keys - updates.Keys)
      invariant Staged(SEQ, original, actions, done, newData, newErrors)
      decreases updates.Keys
    {
      var key :| key in updates.Keys;
      StagedStep(SEQ, original, actions, done, newData, newErrors, key);
      if key in newData {
        var currentVersion := newData[key].version;
        if updates[key].version == Succ(currentVersion) {
          newData := newData[key := updates[key]];
        } else {
          newErrors := newErrors[key := EntryError.InvalidSuccessor(LowByte(currentVersion))];
        }
      } else {
        newErrors := newErrors[key := EntryError.NoSuchEntry];
      }
      updates := updates - {key};
      done := done + {key};
    }
    assert done == visited + update.Keys;
  }

  /** The loop over the deletes, on a working copy and the errors collected so far. */
  method DeleteAllSeq(data: map<Bytes, SeqValue>, errors: map<Bytes, EntryError>, delete: map<Bytes, U64>,
                      ghost original: map<Bytes, SeqValue>, ghost actions: map<Bytes, SeqEntryAction>,
                      ghost visited: set<Bytes>)
    returns (newData: map<Bytes, SeqValue>, newErrors: map<Bytes, EntryError>)
    requires Staged(SEQ, original, actions, visited, data, errors)
    requires forall k <- delete.Keys :: k in actions && k !in visited && actions[k] == SeqEntryAction.Del(delete[k])
    ensures Staged(SEQ, original, actions, visited + delete.Keys, newData, newErrors)
  {
    newData, newErrors := data, errors;
    ghost var done := visited;
    var deletes := delete;
    while deletes.Keys != {}
      invariant forall k <- deletes.Keys :: k in delete && deletes[k] == delete[k]
      invariant done == visited + (delete.Keys - deletes.Keys)
      invariant Staged(SEQ, original, actions, done, newData, newErrors)
      decreases deletes.Keys
    {
      var key :| key in deletes.Keys;
      StagedStep(SEQ, original, actions, done, newData, newErrors, key);
      if key in newData {
        var currentVersion := newData[key].version;
        if deletes[key] == Succ(currentVersion) {
          newData := newData - {key};
        } else {
          newErrors := newErrors[key := EntryError.InvalidSuccessor(LowByte(currentVersion))];
        }
      } else {
        newErrors := newErrors[key := EntryError.NoSuchEntry];
      }
      deletes := deletes - {key};
      done := done + {key};
    }
    assert done == visited + delete.Keys;
  }

  /** The three loops in turn, over a working copy of the entries. */
  method StageSeq(data: map<Bytes, SeqValue>, insert: map<Bytes, SeqValue>, update: map<Bytes, SeqValue>,
                  delete: map<Bytes, U64>, ghost actions: map<Bytes, SeqEntryAction>)
    returns (newData: map<Bytes, SeqValue>, errors: map<Bytes, EntryError>)
    requires IsSplitSeq(actions, insert, update, delete)
    ensures newData == Effect(SEQ, data, actions)
    ensures errors == Errors(SEQ, data, actions)
    ensures errors == map[] <==> AllValid(SEQ, data, actions)
  {
    StagedStart(SEQ, data, actions);
    newData, errors := InsertAllSeq(data, map[], insert, data, actions, {});
    newData, errors := UpdateAllSeq(newData, errors, update, data, actions, {} + insert.Keys);
    newData, errors := DeleteAllSeq(newData, errors, delete, data, actions, {} + insert.Keys + update.Keys);
    assert {} + insert.Keys + update.Keys + delete.Keys == actions.Keys;
    StagedEnd(SEQ, data, actions, newData, errors);
  }

  /** Mutates the entries of a sequenced Map in bulk. */
  method MutateSeqEntries(self: SeqData, actions: map<Bytes, SeqEntryAction>, requester: PublicKey)
    returns (r: Result<()>)
    modifies self`data
    ensures (self.View(), r) == Mutate(SEQ, old(self.View()), actions, requester)
  {
    var insert, update, delete := SplitSeq(actions);
    ghost var before := self.View();
    PermitsSeq(before, actions, insert, update, delete, requester);
    if self.owner != requester
       && ((insert.Keys != {} && !self.View().IsActionAllowed(requester, Action.Insert))
           || (update.Keys != {} && !self.View().IsActionAllowed(requester, Action.Update))
           || (delete.Keys != {} && !self.View().IsActionAllowed(requester, Action.Delete)))
    {
      return Err(AccessDenied);
    }

    var newData, errors := StageSeq(self.data, insert, update, delete, actions);
    if errors != map[] {
      return Err(InvalidEntryActions(errors));
    }
    self.data := newData;
    r := Ok(());
  }

  /** The loop over the inserts, on a working copy and the errors collected so far. */
  method InsertAllUnseq(data: map<Bytes, Bytes>, errors: map<Bytes, EntryError>, insert: map<Bytes, Bytes>,
                      ghost original: map<Bytes, Bytes>, ghost actions: map<Bytes, UnseqEntryAction>,
                      ghost visited: set<Bytes>)
    returns (newData: map<Bytes, Bytes>, newErrors: map<Bytes, EntryError>)
    requires Staged(UNSEQ, original, actions, visited, data, errors)
    requires forall k <- insert.Keys :: k in actions && k !in visited && actions[k] == UnseqEntryAction.Ins(insert[k])
    ensures Staged(UNSEQ, original, actions, visited + insert.Keys, newData, newErrors)
  {
    newData, newErrors := data, errors;
    ghost var done := visited;
    var inserts := insert;
    while inserts.Keys != {}
      invariant forall k <- inserts.Keys :: k in insert && inserts[k] == insert[k]
      invariant done == visited + (insert.Keys - inserts.Keys)
      invariant Staged(UNSEQ, original, actions, done, newData, newErrors)
      decreases inserts.Keys
    {
      var key :| key in inserts.Keys;
      StagedStep(UNSEQ, original, actions, done, newData, newErrors, key);
      if key in newData {
        newErrors := newErrors[key := EntryError.EntryExists(0)];
      } else {
        newData := newData[key := inserts[key]];
      }
      inserts := inserts - {key};
      done := done + {key};
    }
    assert done == visited + insert.Keys;
  }

  /** The loop over the updates, on a working copy and the errors collected so far. */
  method UpdateAllUnseq(data: map<Bytes, Bytes>, errors: map<Bytes, EntryError>, update: map<Bytes, Bytes>,
                      ghost original: map<Bytes, Bytes>, ghost actions: map<Bytes, UnseqEntryAction>,
                      ghost visited: set<Bytes>)
    returns (newData: map<Bytes, Bytes>, newErrors: map<Bytes, EntryError>)
    requires Staged(UNSEQ, original, actions, visited, data, errors)
    requires forall k <- update.Keys ::
        k in actions && k !in visited && actions[k] == UnseqEntryAction.Update(update[k])
    ensures Staged(UNSEQ, original, actions, visited + update.Keys, newData, newErrors)
  {
    newData, newErrors := data, errors;
    ghost var done := visited;
    var updates := update;
    while updates.Keys != {}
      invariant forall k <- updates.Keys :: k in update && updates[k] == update[k]
      invariant done == visited + (update.Keys - updates.Keys)
      invariant Staged(UNSEQ, original, actions, done, newData, newErrors)
      decreases updates.Keys
    {
      var key :| key in updates.Keys;
      StagedStep(UNSEQ, original, actions, done, newData, newErrors, key);
      if key in newData {
        newData := newData[key := updates[key]];
      } else {
        newErrors := newErrors[key := EntryError.NoSuchEntry];
      }
      updates := updates - {key};
      done := done + {key};
    }
    assert done == visited + update.Keys;
  }

  /** The loop over the deletes, on a working copy and the errors collected so far. */
  method DeleteAllUnseq(data: map<Bytes, Bytes>, errors: map<Bytes, EntryError>, delete: set<Bytes>,
                      ghost original: map<Bytes, Bytes>, ghost actions: map<Bytes, UnseqEntryAction>,
                      ghost visited: set<Bytes>)
    returns (newData: map<Bytes, Bytes>, newErrors: map<Bytes, EntryError>)
    requires Staged(UNSEQ, original, actions, visited, data, errors)
    requires forall k <- delete :: k in actions && k !in visited && actions[k] == UnseqEntryAction.Del
    ensures Staged(UNSEQ, original, actions, visited + delete, newData, newErrors)
  {
    newData, newErrors := data, errors;
    ghost var done := visited;
    var deletes := delete;
    while deletes != {}
      invariant deletes <= delete
      invariant done == visited + (delete - deletes)
      invariant Staged(UNSEQ, original, actions, done, newData, newErrors)
      decreases deletes
    {
      var key :| key in deletes;
      StagedStep(UNSEQ, original, actions, done, newData, newErrors, key);
      if key in newData {
        newData := newData - {key};
      } else {
        newErrors := newErrors[key := EntryError.NoSuchEntry];
      }
      deletes := deletes - {key};
      done := done + {key};
    }
    assert done == visited + delete;
  }

  /** The three loops in turn, over a working copy of the entries. */
  method StageUnseq(data: map<Bytes, Bytes>, insert: map<Bytes, Bytes>, update: map<Bytes, Bytes>, delete: set<Bytes>,
                  ghost actions: map<Bytes, UnseqEntryAction>)
    returns (newData: map<Bytes, Bytes>, errors: map<Bytes, EntryError>)
    requires IsSplitUnseq(actions, insert, update, delete)
    ensures newData == Effect(UNSEQ, data, actions)
    ensures errors == Errors(UNSEQ, data, actions)
    ensures errors == map[] <==> AllValid(UNSEQ, data, actions)
  {
    StagedStart(UNSEQ, data, actions);
    newData, errors := InsertAllUnseq(data, map[], insert, data, actions, {});
    newData, errors := UpdateAllUnseq(newData, errors, update, data, actions, {} + insert.Keys);
    newData, errors := DeleteAllUnseq(newData, errors, delete, data, actions, {} + insert.Keys + update.Keys);
    assert {} + insert.Keys + update.Keys + delete == actions.Keys;
    StagedEnd(UNSEQ, data, actions, newData, errors);
  }

  /** Mutates the entries of an unsequenced Map in bulk. */
  method MutateUnseqEntries(self: UnseqData, actions: map<Bytes, UnseqEntryAction>, requester: PublicKey)
    returns (r: Result<()>)
    modifies self`data
    ensures (self.View(), r) == Mutate(UNSEQ, old(self.View()), actions, requester)
  {
    var insert, update, delete := SplitUnseq(actions);
    ghost var before := self.View();
    PermitsUnseq(before, actions, insert, update, delete, requester);
    if self.owner != requester
       && ((insert.Keys != {} && !self.View().IsActionAllowed(requester, Action.Insert))
           || (update.Keys != {} && !self.View().IsActionAllowed(requester, Action.Update))
           || (delete != {} && !self.View().IsActionAllowed(requester, Action.Delete)))
    {
      return Err(AccessDenied);
    }

    var newData, errors := StageUnseq(self.data, insert, update, delete, actions);
    if errors != map[] {
      return Err(InvalidEntryActions(errors));
    }
    self.data := newData;
    r := Ok(());
  }

  /** Asking once per kind of action that occurs is asking once per action. */
  lemma PermitsSeq(s: MapState<SeqValue>, actions: map<Bytes, SeqEntryAction>, insert: map<Bytes, SeqValue>,
                   update: map<Bytes, SeqValue>, delete: map<Bytes, U64>, requester: PublicKey)
    requires IsSplitSeq(actions, insert, update, delete)
    ensures Permits(SEQ, s, actions, requester) <==>
        requester == s.owner
        || ((insert.Keys != {} ==> s.IsActionAllowed(requester, Action.Insert))
            && (update.Keys != {} ==> s.IsActionAllowed(requester, Action.Update))
            && (delete.Keys != {} ==> s.IsActionAllowed(requester, Action.Delete)))
  {
    if requester != s.owner {
      forall k <- actions.Keys
        ensures s.CheckPermissions(SEQ.kind(actions[k]), requester).Ok? <==>
            s.IsActionAllowed(requester, SEQ.kind(actions[k]))
      {
      }
      if k :| k in insert.Keys { assert SEQ.kind(actions[k]) == Action.Insert; }
      if k :| k in update.Keys { assert SEQ.kind(actions[k]) == Action.Update; }
      if k :| k in delete.Keys { assert SEQ.kind(actions[k]) == Action.Delete; }
    }
  }

  lemma PermitsUnseq(s: MapState<Bytes>, actions: map<Bytes, UnseqEntryAction>, insert: map<Bytes, Bytes>,
                   update: map<Bytes, Bytes>, delete: set<Bytes>, requester: PublicKey)
    requires IsSplitUnseq(actions, insert, update, delete)
    ensures Permits(UNSEQ, s, actions, requester) <==>
        requester == s.owner
        || ((insert.Keys != {} ==> s.IsActionAllowed(requester, Action.Insert))
            && (update.Keys != {} ==> s.IsActionAllowed(requester, Action.Update))
            && (delete != {} ==> s.IsActionAllowed(requester, Action.Delete)))
  {
    if requester != s.owner {
      forall k <- actions.Keys
        ensures s.CheckPermissions(UNSEQ.kind(actions[k]), requester).Ok? <==>
            s.IsActionAllowed(requester, UNSEQ.kind(actions[k]))
      {
      }
      if k :| k in insert.Keys { assert UNSEQ.kind(actions[k]) == Action.Insert; }
      if k :| k in update.Keys { assert UNSEQ.kind(actions[k]) == Action.Update; }
      if k :| k in delete { assert UNSEQ.kind(actions[k]) == Action.Delete; }
    }
  }
}
