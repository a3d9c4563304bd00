/** What bulk mutations promise: each batch is a transaction judged key by key, batches on different
    keys can be split and reordered, versions only ever restrict, and replays are refused. */
module MapBatches {
  import opened Common
  import opened MapTypes
  import opened Transaction

  // ----- one batch

  lemma SeqValidity(data: map<Bytes, SeqValue>, actions: map<Bytes, SeqEntryAction>, k: Bytes)
    requires k in actions
    ensures !Judge(SEQ, data, actions, k).Refuse? <==>
        && (actions[k].Ins? <==> k !in data)
        && (actions[k].Update? ==> actions[k].value.version == Succ(data[k].version))
        && (actions[k].Del? ==> actions[k].version == Succ(data[k].version))
    ensures !Judge(SEQ, data, actions, k).Refuse? ==>
        After(SEQ, data, actions, actions.Keys, k) == if actions[k].Del? then None else Some(actions[k].value)
  {
    assert Judge(SEQ, data, actions, k) == SeqRule(actions[k], Lookup(data, k));
  }

  lemma UnseqValidity(data: map<Bytes, Bytes>, actions: map<Bytes, UnseqEntryAction>, k: Bytes)
    requires k in actions
    ensures !Judge(UNSEQ, data, actions, k).Refuse? <==> (actions[k].Ins? <==> k !in data)
    ensures !Judge(UNSEQ, data, actions, k).Refuse? ==>
        After(UNSEQ, data, actions, actions.Keys, k) == if actions[k].Del? then None else Some(actions[k].value)
  {
    assert Judge(UNSEQ, data, actions, k) == UnseqRule(actions[k], Lookup(data, k));
  }

  /** A batch that takes effect does to each key what its action says, and nothing to the other keys. */
  lemma EffectIsPointwise<A, V>(f: Flavour<A, V>, data: map<Bytes, V>, actions: map<Bytes, A>, k: Bytes)
    ensures Lookup(Effect(f, data, actions), k) == After(f, data, actions, actions.Keys, k)
    ensures k !in actions ==> Lookup(Effect(f, data, actions), k) == Lookup(data, k)
  {
  }

  /** The right to an action, as the fields have it: the owner may do anything, anyone else what their
      permission set holds. */
  predicate HasRight<V>(s: MapState<V>, requester: PublicKey, action: Action) {
    requester == s.owner || (requester in s.permissions && action in s.permissions[requester].permissions)
  }

  /** The right to every action of a batch. */
  ghost predicate SeqRights(s: MapState<SeqValue>, actions: map<Bytes, SeqEntryAction>, requester: PublicKey) {
    forall k <- actions.Keys ::
      && (actions[k].Ins? ==> HasRight(s, requester, Action.Insert))
      && (actions[k].Update? ==> HasRight(s, requester, Action.Update))
      && (actions[k].Del? ==> HasRight(s, requester, Action.Delete))
  }

  ghost predicate UnseqRights(s: MapState<Bytes>, actions: map<Bytes, UnseqEntryAction>, requester: PublicKey) {
    forall k <- actions.Keys ::
      && (actions[k].Ins? ==> HasRight(s, requester, Action.Insert))
      && (actions[k].Update? ==> HasRight(s, requester, Action.Update))
      && (actions[k].Del? ==> HasRight(s, requester, Action.Delete))
  }

  lemma PermitsIsSeqRights(s: MapState<SeqValue>, actions: map<Bytes, SeqEntryAction>, requester: PublicKey)
    ensures Permits(SEQ, s, actions, requester) <==> SeqRights(s, actions, requester)
  {
    forall k <- actions.Keys
      ensures s.CheckPermissions(SEQ.kind(actions[k]), requester).Ok? <==>
          && (actions[k].Ins? ==> HasRight(s, requester, Action.Insert))
          && (actions[k].Update? ==> HasRight(s, requester, Action.Update))
          && (actions[k].Del? ==> HasRight(s, requester, Action.Delete))
    {
      assert SEQ.kind(actions[k]) == SeqKind(actions[k]);
    }
  }

  lemma PermitsIsUnseqRights(s: MapState<Bytes>, actions: map<Bytes, UnseqEntryAction>, requester: PublicKey)
    ensures Permits(UNSEQ, s, actions, requester) <==> UnseqRights(s, actions, requester)
  {
    forall k <- actions.Keys
      ensures s.CheckPermissions(UNSEQ.kind(actions[k]), requester).Ok? <==>
          && (actions[k].Ins? ==> HasRight(s, requester, Action.Insert))
          && (actions[k].Update? ==> HasRight(s, requester, Action.Update))
          && (actions[k].Del? ==> HasRight(s, requester, Action.Delete))
    {
      assert UNSEQ.kind(actions[k]) == UnseqKind(actions[k]);
    }
  }

  /** Who lacks the right to any one action is refused for that and learns nothing of the entries, whatever
      they are and whatever else the batch holds. */
  lemma SeqDenied(s: MapState<SeqValue>, actions: map<Bytes, SeqEntryAction>, requester: PublicKey)
    requires !SeqRights(s, actions, requester)
    ensures Mutate(SEQ, s, actions, requester) == (s, Err(AccessDenied))
  {
    PermitsIsSeqRights(s, actions, requester);
  }

  lemma UnseqDenied(s: MapState<Bytes>, actions: map<Bytes, UnseqEntryAction>, requester: PublicKey)
    requires !UnseqRights(s, actions, requester)
    ensures Mutate(UNSEQ, s, actions, requester) == (s, Err(AccessDenied))
  {
    PermitsIsUnseqRights(s, actions, requester);
  }

  /** A sequenced batch is accepted exactly if the requester has the right to every action in it and every
      action is valid against the original entries. It is all or nothing, and touches nothing but the
      entries it names. */
  lemma SeqBatch(s: MapState<SeqValue>, actions: map<Bytes, SeqEntryAction>, requester: PublicKey)
    ensures var (t, r) := Mutate(SEQ, s, actions, requester);
            && t == s.(data := t.data)
            && (r.Ok? <==> SeqRights(s, actions, requester) && forall k <- actions.Keys ::
                  && (actions[k].Ins? <==> k !in s.data)
                  && (actions[k].Update? ==> actions[k].value.version == Succ(s.data[k].version))
                  && (actions[k].Del? ==> actions[k].version == Succ(s.data[k].version)))
            && (r.Ok? ==> forall k ::
                  if k in actions then
                    && (k in t.data <==> !actions[k].Del?)
                    && (k in t.data ==> t.data[k] == actions[k].value)
                  else
                    && (k in t.data <==> k in s.data)
                    && (k in t.data ==> t.data[k] == s.data[k]))
            && (r.Err? ==> t == s)
  {
    PermitsIsSeqRights(s, actions, requester);
    forall k <- actions.Keys { SeqValidity(s.data, actions, k); }
    forall k { EffectIsPointwise(SEQ, s.data, actions, k); }
    assert Mutate(SEQ, s, actions, requester).1.Ok? ==>
        forall k :: Lookup(Effect(SEQ, s.data, actions), k) == After(SEQ, s.data, actions, actions.Keys, k);
  }

  /** The unsequenced counterpart of `SeqBatch`. */
  lemma UnseqBatch(s: MapState<Bytes>, actions: map<Bytes, UnseqEntryAction>, requester: PublicKey)
    ensures var (t, r) := Mutate(UNSEQ, s, actions, requester);
            && t == s.(data := t.data)
            && (r.Ok? <==> UnseqRights(s, actions, requester)
                           && forall k <- actions.Keys :: (actions[k].Ins? <==> k !in s.data))
            && (r.Ok? ==> forall k ::
                  if k in actions then
                    && (k in t.data <==> !actions[k].Del?)
                    && (k in t.data ==> t.data[k] == actions[k].value)
                  else
                    && (k in t.data <==> k in s.data)
                    && (k in t.data ==> t.data[k] == s.data[k]))
            && (r.Err? ==> t == s)
  {
    PermitsIsUnseqRights(s, actions, requester);
    forall k <- actions.Keys { UnseqValidity(s.data, actions, k); }
    forall k { EffectIsPointwise(UNSEQ, s.data, actions, k); }
    assert Mutate(UNSEQ, s, actions, requester).1.Ok? ==>
        forall k :: Lookup(Effect(UNSEQ, s.data, actions), k) == After(UNSEQ, s.data, actions, actions.Keys, k);
  }

  /** An action that cannot be applied to the entries as they are. */
  predicate SeqInvalid(data: map<Bytes, SeqValue>, action: SeqEntryAction, k: Bytes) {
    || (k in data <==> action.Ins?)
    || (action.Update? && action.value.version != Succ(data[k].version))
    || (action.Del? && action.version != Succ(data[k].version))
  }

  lemma SeqErrorAt(data: map<Bytes, SeqValue>, actions: map<Bytes, SeqEntryAction>, k: Bytes)
    ensures var errors := Errors(SEQ, data, actions);
            && (k in errors <==> k in actions && SeqInvalid(data, actions[k], k))
            && (k in errors ==> errors[k] == if k !in data then EntryError.NoSuchEntry
                                             else if actions[k].Ins? then EntryError.EntryExists(data[k].version % 256)
                                             else EntryError.InvalidSuccessor(data[k].version % 256))
  {
    if k in actions {
      SeqValidity(data, actions, k);
    }
  }

  /** The error map of a refused sequenced batch names exactly the invalid actions; an error about an
      entry that exists reports the low byte of the version stored before the call. */
  lemma SeqErrors(s: MapState<SeqValue>, actions: map<Bytes, SeqEntryAction>, requester: PublicKey)
    requires Mutate(SEQ, s, actions, requester).1.Err?
    requires SeqRights(s, actions, requester)
    ensures Mutate(SEQ, s, actions, requester).1.error.InvalidEntryActions?
    ensures var errors := Mutate(SEQ, s, actions, requester).1.error.errors;
            && errors.Keys != {}
            && (forall k :: k in errors <==> k in actions && SeqInvalid(s.data, actions[k], k))
            && (forall k <- errors.Keys ::
                  errors[k] == if k !in s.data then EntryError.NoSuchEntry
                               else if actions[k].Ins? then EntryError.EntryExists(s.data[k].version % 256)
                               else EntryError.InvalidSuccessor(s.data[k].version % 256))
  {
    PermitsIsSeqRights(s, actions, requester);
    forall k { SeqErrorAt(s.data, actions, k); }
    var bad :| bad in actions.Keys && Judge(SEQ, s.data, actions, bad).Refuse?;
    assert bad in Errors(SEQ, s.data, actions);
  }

  /** The unsequenced counterpart, whose errors carry no version. */
  lemma UnseqErrors(s: MapState<Bytes>, actions: map<Bytes, UnseqEntryAction>, requester: PublicKey)
    requires Mutate(UNSEQ, s, actions, requester).1.Err?
    requires UnseqRights(s, actions, requester)
    ensures Mutate(UNSEQ, s, actions, requester).1.error.InvalidEntryActions?
    ensures var errors := Mutate(UNSEQ, s, actions, requester).1.error.errors;
            && errors.Keys != {}
            && (forall k :: k in errors <==> k in actions && (k in s.data <==> actions[k].Ins?))
            && (forall k <- errors.Keys ::
                  errors[k] == if k in s.data then EntryError.EntryExists(0) else EntryError.NoSuchEntry)
  {
    PermitsIsUnseqRights(s, actions, requester);
    forall k <- actions.Keys
      ensures Judge(UNSEQ, s.data, actions, k).Refuse? <==> (k in s.data <==> actions[k].Ins?)
      ensures Judge(UNSEQ, s.data, actions, k) == UnseqRule(actions[k], Lookup(s.data, k))
    {
      UnseqValidity(s.data, actions, k);
    }
    var bad :| bad in actions.Keys && Judge(UNSEQ, s.data, actions, bad).Refuse?;
    assert bad in Errors(UNSEQ, s.data, actions);
  }

  // ----- splitting a batch

  lemma JudgeOfUnion<A, V>(f: Flavour<A, V>, data: map<Bytes, V>, a: map<Bytes, A>, b: map<Bytes, A>)
    requires a.Keys !! b.Keys
    ensures forall k <- a.Keys :: Judge(f, data, a + b, k) == Judge(f, data, a, k)
    ensures forall k <- b.Keys :: Judge(f, data, a + b, k) == Judge(f, data, b, k)
  {
  }

  /** A batch on other keys does not change how an action is judged. */
  lemma JudgeAfterOther<A, V>(f: Flavour<A, V>, data: map<Bytes, V>, a: map<Bytes, A>, b: map<Bytes, A>)
    requires a.Keys !! b.Keys
    ensures forall k <- b.Keys :: Judge(f, Effect(f, data, a), b, k) == Judge(f, data, b, k)
    ensures AllValid(f, Effect(f, data, a), b) <==> AllValid(f, data, b)
  {
    forall k <- b.Keys
      ensures Judge(f, Effect(f, data, a), b, k) == Judge(f, data, b, k)
    {
      assert k !in a;
      assert Lookup(Effect(f, data, a), k) == Lookup(data, k);
    }
  }

  lemma EffectOfUnion<A, V>(f: Flavour<A, V>, data: map<Bytes, V>, a: map<Bytes, A>, b: map<Bytes, A>)
    requires a.Keys !! b.Keys
    ensures Effect(f, Effect(f, data, a), b) == Effect(f, data, a + b)
  {
    var first := Effect(f, data, a);
    forall k
      ensures Lookup(Effect(f, first, b), k) == Lookup(Effect(f, data, a + b), k)
    {
      EffectIsPointwise(f, data, a, k);
      EffectIsPointwise(f, first, b, k);
      EffectIsPointwise(f, data, a + b, k);
    }
    SameLookups(Effect(f, first, b), Effect(f, data, a + b));
  }

  lemma AcceptsUnion<A, V>(f: Flavour<A, V>, s: MapState<V>, a: map<Bytes, A>, b: map<Bytes, A>, requester: PublicKey)
    requires a.Keys !! b.Keys
    ensures Accepts(f, s, a + b, requester) <==> Accepts(f, s, a, requester) && Accepts(f, s, b, requester)
  {
    JudgeOfUnion(f, s.data, a, b);
    assert forall k <- a.Keys :: k in (a + b).Keys && (a + b)[k] == a[k];
    assert forall k <- b.Keys :: k in (a + b).Keys && (a + b)[k] == b[k];
    assert forall k <- (a + b).Keys :: k in a.Keys || k in b.Keys;
  }

  /** Having run one half does not change whether the other is accepted. */
  lemma AcceptsAfterOther<A, V>(f: Flavour<A, V>, s: MapState<V>, a: map<Bytes, A>, b: map<Bytes, A>,
                                requester: PublicKey)
    requires a.Keys !! b.Keys
    ensures Accepts(f, s.(data := Effect(f, s.data, a)), b, requester) <==> Accepts(f, s, b, requester)
  {
    JudgeAfterOther(f, s.data, a, b);
    PermitsElsewhere(f, s, Effect(f, s.data, a), b, requester);
  }

  /** A batch is accepted exactly if its two halves are, one after the other; it then leaves the same
      Map. */
  lemma SplitBatch<A, V>(f: Flavour<A, V>, s: MapState<V>, a: map<Bytes, A>, b: map<Bytes, A>, requester: PublicKey)
    requires a.Keys !! b.Keys
    ensures var (whole, r) := Mutate(f, s, a + b, requester);
            var (first, r1) := Mutate(f, s, a, requester);
            var (second, r2) := Mutate(f, first, b, requester);
            && (r.Ok? <==> r1.Ok? && r2.Ok?)
            && (r.Ok? ==> whole == second)
  {
    AcceptsUnion(f, s, a, b, requester);
    if Accepts(f, s, a, requester) {
      AcceptsAfterOther(f, s, a, b, requester);
      EffectOfUnion(f, s.data, a, b);
    }
  }

  /** Two batches on different keys that succeed in one order succeed in the other, and leave the same
      Map. */
  lemma SwapBatches<A, V>(f: Flavour<A, V>, s: MapState<V>, a: map<Bytes, A>, b: map<Bytes, A>, requester: PublicKey)
    requires a.Keys !! b.Keys
    requires Mutate(f, s, a, requester).1.Ok?
    requires Mutate(f, Mutate(f, s, a, requester).0, b, requester).1.Ok?
    ensures Mutate(f, s, b, requester).1.Ok?
    ensures Mutate(f, Mutate(f, s, b, requester).0, a, requester).1.Ok?
    ensures Mutate(f, Mutate(f, s, b, requester).0, a, requester).0 ==
        Mutate(f, Mutate(f, s, a, requester).0, b, requester).0
  {
    var ab, ba := a + b, b + a;
    assert ab == ba;
    assert Mutate(f, s, ab, requester).1.Ok?
           && Mutate(f, s, ab, requester).0 == Mutate(f, Mutate(f, s, a, requester).0, b, requester).0 by {
      SplitBatch(f, s, a, b, requester);
    }
    assert Mutate(f, s, b, requester).1.Ok?
           && Mutate(f, Mutate(f, s, b, requester).0, a, requester).1.Ok?
           && Mutate(f, s, ba, requester).0 == Mutate(f, Mutate(f, s, b, requester).0, a, requester).0 by {
      SplitBatch(f, s, b, a, requester);
    }
  }

  // ----- forgetting versions

  function EraseData(data: map<Bytes, SeqValue>): map<Bytes, Bytes> {
    map k | k in data :: data[k].data
  }

  function EraseAction(action: SeqEntryAction): UnseqEntryAction {
    match action
    case Ins(value) => UnseqEntryAction.Ins(value.data)
    case Update(value) => UnseqEntryAction.Update(value.data)
    case Del(_) => UnseqEntryAction.Del
  }

  function EraseActions(actions: map<Bytes, SeqEntryAction>): map<Bytes, UnseqEntryAction> {
    map k | k in actions :: EraseAction(actions[k])
  }

  function Erase(s: MapState<SeqValue>): MapState<Bytes> {
    MapState(Address.Unseq(s.address.name, s.address.tag), EraseData(s.data), s.permissions, s.version, s.owner)
  }

  /** Every update and every delete of a stored entry carries the version that follows the stored one. */
  ghost predicate VersionsFollow(data: map<Bytes, SeqValue>, actions: map<Bytes, SeqEntryAction>) {
    forall k <- actions.Keys :: k in data ==>
        && (actions[k].Update? ==> actions[k].value.version == Succ(data[k].version))
        && (actions[k].Del? ==> actions[k].version == Succ(data[k].version))
  }

  lemma ErasedEffect(data: map<Bytes, SeqValue>, actions: map<Bytes, SeqEntryAction>)
    requires AllValid(SEQ, data, actions)
    ensures EraseData(Effect(SEQ, data, actions)) == Effect(UNSEQ, EraseData(data), EraseActions(actions))
  {
    var kept := Effect(SEQ, data, actions);
    var erased := Effect(UNSEQ, EraseData(data), EraseActions(actions));
    forall k
      ensures Lookup(EraseData(kept), k) == Lookup(erased, k)
    {
      EffectIsPointwise(SEQ, data, actions, k);
      EffectIsPointwise(UNSEQ, EraseData(data), EraseActions(actions), k);
      if k in actions {
        SeqValidity(data, actions, k);
        UnseqValidity(EraseData(data), EraseActions(actions), k);
      }
    }
    SameLookups(EraseData(kept), erased);
  }

  lemma ErasedAcceptance(s: MapState<SeqValue>, actions: map<Bytes, SeqEntryAction>, requester: PublicKey)
    ensures Accepts(SEQ, s, actions, requester) <==>
        Accepts(UNSEQ, Erase(s), EraseActions(actions), requester) && VersionsFollow(s.data, actions)
  {
    var s', actions' := Erase(s), EraseActions(actions);
    forall k <- actions.Keys
      ensures s.CheckPermissions(SEQ.kind(actions[k]), requester) ==
          s'.CheckPermissions(UNSEQ.kind(actions'[k]), requester)
    {
      assert SEQ.kind(actions[k]) == SeqKind(actions[k]);
      assert UNSEQ.kind(actions'[k]) == UnseqKind(actions'[k]);
    }
    forall k <- actions.Keys
      ensures !Judge(SEQ, s.data, actions, k).Refuse? <==>
          && !Judge(UNSEQ, s'.data, actions', k).Refuse?
          && (k in s.data ==> && (actions[k].Update? ==> actions[k].value.version == Succ(s.data[k].version))
                              && (actions[k].Del? ==> actions[k].version == Succ(s.data[k].version)))
    {
      SeqValidity(s.data, actions, k);
      UnseqValidity(s'.data, actions', k);
    }
    assert actions'.Keys == actions.Keys;
  }

  /** A sequenced Map is an unsequenced one that checks versions: it accepts what the unsequenced Map
      accepts, less the batches whose versions do not follow, and leaves the same contents. */
  lemma VersionsOnlyRestrict(s: MapState<SeqValue>, actions: map<Bytes, SeqEntryAction>, requester: PublicKey)
    ensures var (t, r) := Mutate(SEQ, s, actions, requester);
            var (t', r') := Mutate(UNSEQ, Erase(s), EraseActions(actions), requester);
            && (r.Ok? <==> r'.Ok? && VersionsFollow(s.data, actions))
            && (r.Ok? ==> Erase(t) == t')
  {
    ErasedAcceptance(s, actions, requester);
    if Accepts(SEQ, s, actions, requester) {
      ErasedEffect(s.data, actions);
    }
  }

  // ----- replays

  /** A sequenced batch that succeeded cannot succeed again at once: every one of its actions has become
      invalid, and the Map does not change. */
  lemma SeqReplay(s: MapState<SeqValue>, actions: map<Bytes, SeqEntryAction>, requester: PublicKey)
    requires actions.Keys != {}
    requires Mutate(SEQ, s, actions, requester).1.Ok?
    ensures var t := Mutate(SEQ, s, actions, requester).0;
            var (t', r) := Mutate(SEQ, t, actions, requester);
            t' == t && r.Err? && r.error.InvalidEntryActions? && r.error.errors.Keys == actions.Keys
  {
    var data := Effect(SEQ, s.data, actions);
    forall k <- actions.Keys
      ensures Judge(SEQ, data, actions, k).Refuse?
    {
      EffectIsPointwise(SEQ, s.data, actions, k);
      SeqValidity(s.data, actions, k);
      SeqValidity(data, actions, k);
    }
    PermitsElsewhere(SEQ, s, data, actions, requester);
    RefusesAll(SEQ, data, actions);
  }

  /** Permission does not depend on the entries. */
  lemma PermitsElsewhere<A, V>(f: Flavour<A, V>, s: MapState<V>, data: map<Bytes, V>, actions: map<Bytes, A>,
                               requester: PublicKey)
    ensures Permits(f, s.(data := data), actions, requester) <==> Permits(f, s, actions, requester)
  {
    var t := s.(data := data);
    assert forall k <- actions.Keys ::
        t.CheckPermissions(f.kind(actions[k]), requester) == s.CheckPermissions(f.kind(actions[k]), requester);
  }

  lemma RefusesAll<A, V>(f: Flavour<A, V>, data: map<Bytes, V>, actions: map<Bytes, A>)
    requires actions.Keys != {} && forall k <- actions.Keys :: Judge(f, data, actions, k).Refuse?
    ensures !AllValid(f, data, actions) && Errors(f, data, actions).Keys == actions.Keys
  {
    var some :| some in actions.Keys;
    assert Judge(f, data, actions, some).Refuse?;
  }

  /** An unsequenced batch that succeeded succeeds again exactly if it only updates, and then changes
      nothing more. */
  lemma UnseqReplay(s: MapState<Bytes>, actions: map<Bytes, UnseqEntryAction>, requester: PublicKey)
    requires Mutate(UNSEQ, s, actions, requester).1.Ok?
    ensures var t := Mutate(UNSEQ, s, actions, requester).0;
            var (t', r) := Mutate(UNSEQ, t, actions, requester);
            && t' == t
            && (r.Ok? <==> forall k <- actions.Keys :: actions[k].Update?)
  {
    var t := s.(data := Effect(UNSEQ, s.data, actions));
    forall k <- actions.Keys
      ensures !Judge(UNSEQ, t.data, actions, k).Refuse? <==> actions[k].Update?
    {
      EffectIsPointwise(UNSEQ, s.data, actions, k);
      UnseqValidity(s.data, actions, k);
      UnseqValidity(t.data, actions, k);
    }
    PermitsElsewhere(UNSEQ, s, t.data, actions, requester);
    if AllValid(UNSEQ, t.data, actions) {
      forall k
        ensures Lookup(Effect(UNSEQ, t.data, actions), k) == Lookup(t.data, k)
      {
        EffectIsPointwise(UNSEQ, s.data, actions, k);
        EffectIsPointwise(UNSEQ, t.data, actions, k);
        if k in actions {
          UnseqValidity(s.data, actions, k);
          UnseqValidity(t.data, actions, k);
        }
      }
      SameLookups(Effect(UNSEQ, t.data, actions), t.data);
    }
  }

  // ----- building a batch

  /** One call on a batch under construction: the source's `ins`, `update`, `del` and `add_action`. */
  datatype BuilderCall<A> = BuilderCall(key: Bytes, action: A)

  function Build<A>(actions: map<Bytes, A>, calls: seq<BuilderCall<A>>): map<Bytes, A>
    decreases |calls|
  {
    if calls == [] then actions
    else Build(actions[calls[0].key := calls[0].action], calls[1..])
  }

  /** The last call made for a key, if any. */
  function LastCall<A>(calls: seq<BuilderCall<A>>, key: Bytes): Option<A> {
    if calls == [] then None
    else if calls[|calls| - 1].key == key then Some(calls[|calls| - 1].action)
    else LastCall(calls[..|calls| - 1], key)
  }

  lemma {:induction false} BuildSnoc<A>(actions: map<Bytes, A>, calls: seq<BuilderCall<A>>)
    requires calls != []
    ensures var last := calls[|calls| - 1];
            Build(actions, calls) == Build(actions, calls[..|calls| - 1])[last.key := last.action]
    decreases |calls|
  {
    if |calls| > 1 {
      BuildSnoc(actions[calls[0].key := calls[0].action], calls[1..]);
      assert calls[1..][..|calls| - 2] == calls[..|calls| - 1][1..];
    }
  }

  /** A finished batch holds, for each key, the last action given for it, whatever the order of calls
      for different keys. */
  lemma {:induction false} BuildKeepsLastCall<A>(calls: seq<BuilderCall<A>>, key: Bytes)
    ensures Lookup(Build(map[], calls), key) == LastCall(calls, key)
  {
    if calls != [] {
      BuildSnoc(map[], calls);
      BuildKeepsLastCall(calls[..|calls| - 1], key);
    }
  }
}
