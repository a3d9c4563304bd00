/** Whole runs of a Map: any mix of shell operations and bulk mutations, accepted or refused. */
module MapRuns {
  import opened Common
  import opened Counting
  import opened Deliveries
  import opened MapTypes
  import opened Transaction
  import opened MapBatches
  import opened MapShell

  datatype Call<A> = OnShell(op: ShellOp) | OnEntries(actions: map<Bytes, A>, requester: PublicKey)

  /** The new state, and whether the call was accepted. */
  ghost function Step<A, V>(f: Flavour<A, V>, s: MapState<V>, call: Call<A>): (MapState<V>, bool) {
    match call
    case OnShell(op) => (Shell(s, op).0, Shell(s, op).1.Accepted())
    case OnEntries(actions, requester) =>
      (Mutate(f, s, actions, requester).0, Mutate(f, s, actions, requester).1.Ok?)
  }

  ghost function Run<A, V>(f: Flavour<A, V>, s: MapState<V>, calls: seq<Call<A>>): MapState<V>
    decreases |calls|
  {
    if calls == [] then s else Run(f, Step(f, s, calls[0]).0, calls[1..])
  }

  // ----- one step

  /** The one state in which accepting a validated operation does not raise the version. */
  predicate WrapsAround<V>(s: MapState<V>, op: ShellOp) {
    op.IsValidated() && s.version == U64_MAX
  }

  /** A shell operation leaves the entries alone, moves the version to the one it names if it is
      accepted, and changes nothing at all if it is refused. The move is upwards, except for the step
      from the largest version to zero. */
  lemma ShellStep<V>(s: MapState<V>, op: ShellOp)
    ensures var (t, reply) := Shell(s, op);
            && t.address == s.address && t.data == s.data
            && (reply.Accepted() ==> t.version == op.version)
            && (reply.Accepted() ==> (t.version > s.version <==> !WrapsAround(s, op)))
            && (reply.Accepted() && op.IsValidated() ==> t.version == Wrap(s.version + 1))
            && (!reply.Accepted() ==> t == s)
  {
  }

  /** What every shell operation replies: validated ones insist on the next version before anything else,
      and report the stored one; the others only say whether theirs is larger. */
  lemma ShellReplies<V>(s: MapState<V>, op: ShellOp)
    ensures op.DelUserPermissionsWithoutValidation? || op.ChangeOwnerWithoutValidation? ==>
        Shell(s, op).1 == Flag(op.version > s.version)
    ensures op.SetUserPermissions? || op.ChangeOwner? ==>
        Shell(s, op).1 == Replied(if op.version == (if s.version == U64_MAX then 0 else s.version + 1) then Ok(())
                                  else Err(Error.InvalidSuccessor(s.version)))
    ensures op.DelUserPermissions? ==>
        Shell(s, op).1 == Replied(if op.version != (if s.version == U64_MAX then 0 else s.version + 1)
                                  then Err(Error.InvalidSuccessor(s.version))
                                  else if op.user in s.permissions then Ok(()) else Err(NoSuchKey))
  {
    SuccOf(s.version);
  }

  /** Any call of either flavour: refused, it changes nothing; accepted, a batch changes only entries and
      a shell operation only the shell. */
  lemma StepFrame<A, V>(f: Flavour<A, V>, s: MapState<V>, call: Call<A>)
    ensures var (t, accepted) := Step(f, s, call);
            && (!accepted ==> t == s)
            && t.address == s.address
            && (call.OnEntries? ==> t == s.(data := t.data))
            && (call.OnShell? ==> t.data == s.data)
  {
  }

  /** The step that `WrapsAround` describes does happen: at the largest version a change of owner is
      accepted with version zero. */
  lemma LargestVersionWraps<V>(s: MapState<V>, newOwner: PublicKey)
    requires s.version == U64_MAX
    ensures Shell(s, ChangeOwner(newOwner, 0)) == (s.(owner := newOwner, version := 0), Replied(Ok(())))
  {
    assert Succ(s.version) == Wrap(U64_SIZE) == Wrap(0) == 0;
  }

  // ----- shell versions

  /** The versions named by the shell operations a run accepts, in order. */
  ghost function AcceptedVersions<A, V>(f: Flavour<A, V>, s: MapState<V>, calls: seq<Call<A>>): seq<U64>
    decreases |calls|
  {
    if calls == [] then []
    else
      var (t, accepted) := Step(f, s, calls[0]);
      (if accepted && calls[0].OnShell? then [calls[0].op.version] else []) + AcceptedVersions(f, t, calls[1..])
  }

  /** How many validated operations a run accepts while the version is the largest there is. */
  ghost function Wraps<A, V>(f: Flavour<A, V>, s: MapState<V>, calls: seq<Call<A>>): nat
    decreases |calls|
  {
    if calls == [] then 0
    else
      var (t, accepted) := Step(f, s, calls[0]);
      (if accepted && calls[0].OnShell? && WrapsAround(s, calls[0].op) then 1 else 0) + Wraps(f, t, calls[1..])
  }

  /** `first` and then `rest` go strictly upwards. */
  predicate Climbs(first: U64, rest: seq<U64>)
    decreases |rest|
  {
    rest == [] || (first < rest[0] && Climbs(rest[0], rest[1..]))
  }

  lemma {:induction false} ClimbsMeans(first: U64, rest: seq<U64>)
    requires Climbs(first, rest)
    ensures forall i | 0 <= i < |rest| :: first < rest[i]
    ensures forall i, j | 0 <= i < j < |rest| :: rest[i] < rest[j]
    decreases |rest|
  {
    if rest != [] {
      ClimbsMeans(rest[0], rest[1..]);
    }
  }

  /** Accepted shell versions strictly increase over a run, exactly if it never wraps around. */
  lemma {:induction false} VersionsClimb<A, V>(f: Flavour<A, V>, s: MapState<V>, calls: seq<Call<A>>)
    ensures Climbs(s.version, AcceptedVersions(f, s, calls)) <==> Wraps(f, s, calls) == 0
    decreases |calls|
  {
    if calls != [] {
      var (t, accepted) := Step(f, s, calls[0]);
      var later := AcceptedVersions(f, t, calls[1..]);
      VersionsClimb(f, t, calls[1..]);
      if calls[0].OnShell? {
        ShellStep(s, calls[0].op);
      }
      if accepted && calls[0].OnShell? {
        assert ([calls[0].op.version] + later)[1..] == later;
      } else {
        assert AcceptedVersions(f, s, calls) == later;
        assert t.version == s.version;
      }
    }
  }

  /** Hence no version number is accepted twice in a run that never wraps around. */
  lemma VersionsAcceptedOnce<A, V>(f: Flavour<A, V>, s: MapState<V>, calls: seq<Call<A>>)
    requires Wraps(f, s, calls) == 0
    ensures var versions := AcceptedVersions(f, s, calls);
            && Distinct(versions)
            && (forall i | 0 <= i < |versions| :: s.version < versions[i])
            && (forall i, j | 0 <= i < j < |versions| :: versions[i] < versions[j])
  {
    VersionsClimb(f, s, calls);
    ClimbsMeans(s.version, AcceptedVersions(f, s, calls));
  }

  /** Version zero is accepted exactly as often as a run wraps around. */
  lemma {:induction false} ZeroOncePerWrap<A, V>(f: Flavour<A, V>, s: MapState<V>, calls: seq<Call<A>>)
    ensures multiset(AcceptedVersions(f, s, calls))[0] == Wraps(f, s, calls)
    decreases |calls|
  {
    if calls != [] {
      var (t, accepted) := Step(f, s, calls[0]);
      ZeroOncePerWrap(f, t, calls[1..]);
      if calls[0].OnShell? {
        ShellReplies(s, calls[0].op);
        ShellStep(s, calls[0].op);
      }
    }
  }

  /** So a run that wraps around more than once accepts a version twice. */
  lemma VersionsAcceptedTwice<A, V>(f: Flavour<A, V>, s: MapState<V>, calls: seq<Call<A>>)
    requires Wraps(f, s, calls) >= 2
    ensures !Distinct(AcceptedVersions(f, s, calls))
  {
    ZeroOncePerWrap(f, s, calls);
    if Distinct(AcceptedVersions(f, s, calls)) {
      DistinctOccurOnce(AcceptedVersions(f, s, calls), 0);
    }
  }

  /** Such runs exist, and need not be long: a validated change, an unvalidated jump back to the largest
      version, and the validated change again. */
  lemma VersionZeroTwice<A, V>(f: Flavour<A, V>, s: MapState<V>, owner: PublicKey)
    requires s.version == U64_MAX
    ensures var change := OnShell(ChangeOwner(owner, 0));
            var jump := OnShell(ChangeOwnerWithoutValidation(owner, U64_MAX));
            AcceptedVersions(f, s, [change, jump, change]) == [0, U64_MAX, 0]
  {
    var change: Call<A> := OnShell(ChangeOwner(owner, 0));
    var jump: Call<A> := OnShell(ChangeOwnerWithoutValidation(owner, U64_MAX));
    var low, high := s.(owner := owner, version := 0), s.(owner := owner, version := U64_MAX);
    LargestVersionWraps(s, owner);
    LargestVersionWraps(high, owner);
    assert Step(f, low, jump) == (high, true);
    assert [change, jump, change][1..] == [jump, change];
    assert [jump, change][1..] == [change];
    assert [change][1..] == [];
    assert AcceptedVersions(f, high, [change]) == [0];
    assert AcceptedVersions(f, low, [jump, change]) == [U64_MAX, 0];
  }

  /** After a run the version is the last one accepted, and the address is what it was. */
  lemma {:induction false} VersionIsLastAccepted<A, V>(f: Flavour<A, V>, s: MapState<V>, calls: seq<Call<A>>)
    ensures var versions := AcceptedVersions(f, s, calls);
            Run(f, s, calls).version == if versions == [] then s.version else versions[|versions| - 1]
    ensures Run(f, s, calls).address == s.address
    decreases |calls|
  {
    if calls != [] {
      var (t, accepted) := Step(f, s, calls[0]);
      VersionIsLastAccepted(f, t, calls[1..]);
      if calls[0].OnShell? {
        ShellStep(s, calls[0].op);
      }
    }
  }

  /** The versions go strictly upwards, then to zero, and strictly upwards from there. */
  predicate TurnsOnce(first: U64, versions: seq<U64>)
    decreases |versions|
  {
    versions != []
    && if versions[0] == 0 then Climbs(0, versions[1..])
       else first < versions[0] && TurnsOnce(versions[0], versions[1..])
  }

  lemma {:induction false} TurnsOnceMeans(first: U64, versions: seq<U64>, bound: U64)
    requires TurnsOnce(first, versions) && versions[|versions| - 1] <= bound <= first
    ensures forall i | 0 <= i < |versions| :: versions[i] <= bound || versions[i] > first
    ensures Distinct(versions)
    decreases |versions|
  {
    var rest := versions[1..];
    assert forall i | 0 < i < |versions| :: versions[i] == rest[i - 1];
    if versions[0] == 0 {
      ClimbsMeans(0, rest);
    } else {
      TurnsOnceMeans(versions[0], rest, bound);
    }
  }

  lemma {:induction false} VersionsTurnOnce<A, V>(f: Flavour<A, V>, s: MapState<V>, calls: seq<Call<A>>)
    requires Wraps(f, s, calls) == 1
    ensures TurnsOnce(s.version, AcceptedVersions(f, s, calls))
    decreases |calls|
  {
    var (t, accepted) := Step(f, s, calls[0]);
    var later := AcceptedVersions(f, t, calls[1..]);
    if accepted && calls[0].OnShell? {
      ShellStep(s, calls[0].op);
      assert ([calls[0].op.version] + later)[1..] == later;
      if WrapsAround(s, calls[0].op) {
        VersionsClimb(f, t, calls[1..]);
      } else {
        VersionsTurnOnce(f, t, calls[1..]);
      }
    } else {
      StepFrame(f, s, calls[0]);
      VersionsTurnOnce(f, t, calls[1..]);
      assert AcceptedVersions(f, s, calls) == later;
    }
  }

  /** A run that wraps around once accepts no version twice if it ends no higher than it began. */
  lemma OneWrapAcceptedOnce<A, V>(f: Flavour<A, V>, s: MapState<V>, calls: seq<Call<A>>)
    requires Wraps(f, s, calls) == 1 && Run(f, s, calls).version <= s.version
    ensures Distinct(AcceptedVersions(f, s, calls))
  {
    VersionsTurnOnce(f, s, calls);
    VersionIsLastAccepted(f, s, calls);
    TurnsOnceMeans(s.version, AcceptedVersions(f, s, calls), s.version);
  }

  /** A run whose shell operations are all validated. */
  predicate AllValidated<A>(calls: seq<Call<A>>) {
    forall i | 0 <= i < |calls| :: calls[i].OnShell? ==> calls[i].op.IsValidated()
  }

  lemma {:induction false} ValidatedVersionsGoUp<A, V>(f: Flavour<A, V>, s: MapState<V>, calls: seq<Call<A>>)
    requires AllValidated(calls)
    ensures CountsUp(s.version, AcceptedVersions(f, s, calls), Run(f, s, calls).version)
    decreases |calls|
  {
    if calls != [] {
      var (t, accepted) := Step(f, s, calls[0]);
      var later := AcceptedVersions(f, t, calls[1..]);
      ValidatedVersionsGoUp(f, t, calls[1..]);
      if calls[0].OnShell? {
        ShellStep(s, calls[0].op);
      }
      if accepted && calls[0].OnShell? {
        assert ([calls[0].op.version] + later)[1..] == later;
      } else {
        assert AcceptedVersions(f, s, calls) == later;
        assert t.version == s.version;
      }
    }
  }

  /** With validated shell operations alone, the version counts the accepted ones, and no version is
      accepted twice exactly if there are no more of them than versions. */
  lemma ValidatedVersionsCount<A, V>(f: Flavour<A, V>, s: MapState<V>, calls: seq<Call<A>>)
    requires AllValidated(calls)
    ensures IsCount(s.version, AcceptedVersions(f, s, calls), Run(f, s, calls).version)
    ensures Distinct(AcceptedVersions(f, s, calls)) <==> |AcceptedVersions(f, s, calls)| <= U64_SIZE
  {
    ValidatedVersionsGoUp(f, s, calls);
    CountsUpMeans(s.version, AcceptedVersions(f, s, calls), Run(f, s, calls).version);
    CountIsDistinct(s.version, AcceptedVersions(f, s, calls), Run(f, s, calls).version);
  }

  lemma {:induction false} RunConcat<A, V>(f: Flavour<A, V>, s: MapState<V>, a: seq<Call<A>>, b: seq<Call<A>>)
    ensures Run(f, s, a + b) == Run(f, Run(f, s, a), b)
    ensures AcceptedVersions(f, s, a + b) == AcceptedVersions(f, s, a) + AcceptedVersions(f, Run(f, s, a), b)
    ensures Wraps(f, s, a + b) == Wraps(f, s, a) + Wraps(f, Run(f, s, a), b)
    decreases |a|
  {
    if a == [] {
      assert a + b == b;
    } else {
      assert (a + b)[1..] == a[1..] + b;
      RunConcat(f, Step(f, s, a[0]).0, a[1..], b);
    }
  }

  /** If the operations up to the one acceptance at the largest version are validated, and so skip no
      version, ending no higher than it began is the exact condition, whatever the later ones jump over. */
  lemma OneWrapExactly<A, V>(f: Flavour<A, V>, s: MapState<V>, early: seq<Call<A>>, late: seq<Call<A>>)
    requires AllValidated(early) && Wraps(f, s, early) == 1 && Wraps(f, Run(f, s, early), late) == 0
    ensures Distinct(AcceptedVersions(f, s, early + late)) <==> Run(f, s, early + late).version <= s.version
  {
    RunConcat(f, s, early, late);
    if Run(f, s, early + late).version <= s.version {
      OneWrapAcceptedOnce(f, s, early + late);
    } else {
      LastOneTwice(f, s, early, late);
    }
  }

  lemma LastOneTwice<A, V>(f: Flavour<A, V>, s: MapState<V>, early: seq<Call<A>>, late: seq<Call<A>>)
    requires AllValidated(early) && Wraps(f, s, early) == 1 && Run(f, s, early + late).version > s.version
    ensures !Distinct(AcceptedVersions(f, s, early + late))
  {
    var versions, counted := AcceptedVersions(f, s, early + late), AcceptedVersions(f, s, early);
    var end := Run(f, s, early + late).version;
    RunConcat(f, s, early, late);
    VersionIsLastAccepted(f, s, early + late);
    assert 0 in counted by {
      ZeroOncePerWrap(f, s, early);
    }
    ValidatedVersionsCount(f, s, early);
    CountPasses(s.version, counted, Run(f, s, early).version, end);
    assert versions[end - s.version - 1] == counted[end - s.version - 1] == versions[|versions| - 1];
  }

  // ----- rights after a run

  /** The shell operations a run accepts, in order. */
  ghost function AcceptedOps<A, V>(f: Flavour<A, V>, s: MapState<V>, calls: seq<Call<A>>): seq<ShellOp>
    decreases |calls|
  {
    if calls == [] then []
    else
      var (t, accepted) := Step(f, s, calls[0]);
      (if accepted && calls[0].OnShell? then [calls[0].op] else []) + AcceptedOps(f, t, calls[1..])
  }

  /** The owner named last, if any is named. */
  function LastOwner(ops: seq<ShellOp>, initial: PublicKey): PublicKey {
    if ops == [] then initial
    else
      match ops[|ops| - 1]
      case ChangeOwner(owner, _) => owner
      case ChangeOwnerWithoutValidation(owner, _) => owner
      case _ => LastOwner(ops[..|ops| - 1], initial)
  }

  /** What was last said about a user's permissions, if anything was. */
  function LastGrant(ops: seq<ShellOp>, user: PublicKey, initial: Option<PermissionSet>): Option<PermissionSet> {
    if ops == [] then initial
    else
      var earlier := LastGrant(ops[..|ops| - 1], user, initial);
      match ops[|ops| - 1]
      case SetUserPermissions(u, permissions, _) => if u == user then Some(permissions) else earlier
      case DelUserPermissions(u, _) => if u == user then None else earlier
      case DelUserPermissionsWithoutValidation(u, _) => if u == user then None else earlier
      case _ => earlier
  }

  function GrantOf<V>(s: MapState<V>, user: PublicKey): Option<PermissionSet> {
    if user in s.permissions then Some(s.permissions[user]) else None
  }

  lemma {:induction false} LastOwnerCons(op: ShellOp, ops: seq<ShellOp>, initial: PublicKey)
    ensures LastOwner([op] + ops, initial) == LastOwner(ops, LastOwner([op], initial))
  {
    if ops != [] {
      LastOwnerCons(op, ops[..|ops| - 1], initial);
      assert ([op] + ops)[..|ops|] == [op] + ops[..|ops| - 1];
    } else {
      assert [op] + ops == [op];
    }
  }

  lemma {:induction false} LastGrantCons(op: ShellOp, ops: seq<ShellOp>, user: PublicKey,
                                         initial: Option<PermissionSet>)
    ensures LastGrant([op] + ops, user, initial) == LastGrant(ops, user, LastGrant([op], user, initial))
  {
    if ops != [] {
      LastGrantCons(op, ops[..|ops| - 1], user, initial);
      assert ([op] + ops)[..|ops|] == [op] + ops[..|ops| - 1];
    } else {
      assert [op] + ops == [op];
    }
  }

  lemma ShellChanges<V>(s: MapState<V>, op: ShellOp, user: PublicKey)
    requires Shell(s, op).1.Accepted()
    ensures Shell(s, op).0.owner == LastOwner([op], s.owner)
    ensures GrantOf(Shell(s, op).0, user) == LastGrant([op], user, GrantOf(s, user))
  {
    assert [op][..0] == [];
  }

  lemma {:induction false} RunChanges<A, V>(f: Flavour<A, V>, s: MapState<V>, calls: seq<Call<A>>, user: PublicKey)
    ensures Run(f, s, calls).owner == LastOwner(AcceptedOps(f, s, calls), s.owner)
    ensures GrantOf(Run(f, s, calls), user) == LastGrant(AcceptedOps(f, s, calls), user, GrantOf(s, user))
    decreases |calls|
  {
    if calls != [] {
      var (t, accepted) := Step(f, s, calls[0]);
      var later := AcceptedOps(f, t, calls[1..]);
      RunChanges(f, t, calls[1..], user);
      StepFrame(f, s, calls[0]);
      if accepted && calls[0].OnShell? {
        ShellChanges(s, calls[0].op, user);
        LastOwnerCons(calls[0].op, later, s.owner);
        LastGrantCons(calls[0].op, later, user, GrantOf(s, user));
      } else {
        assert AcceptedOps(f, s, calls) == later;
      }
    }
  }

  /** After any run, who may do what is decided by the last accepted change of owner and the last accepted
      operation that names the requester; refused operations and bulk mutations have no say. */
  lemma RightsAfterRun<A, V>(f: Flavour<A, V>, s: MapState<V>, calls: seq<Call<A>>, requester: PublicKey,
                             action: Action)
    ensures var ops := AcceptedOps(f, s, calls);
            var grant := LastGrant(ops, requester, GrantOf(s, requester));
            Run(f, s, calls).CheckPermissions(action, requester) ==
            if requester == LastOwner(ops, s.owner) || (grant.Some? && action in grant.value.permissions) then Ok(())
            else Err(AccessDenied)
  {
    RunChanges(f, s, calls, requester);
  }

  // ----- entry versions

  /** The entry under `key` exists before and after every call of the run. */
  ghost predicate KeptPresent(s: MapState<SeqValue>, calls: seq<Call<SeqEntryAction>>, key: Bytes)
    decreases |calls|
  {
    && key in s.data
    && (calls == [] || KeptPresent(Step(SEQ, s, calls[0]).0, calls[1..], key))
  }

  predicate Updates(call: Call<SeqEntryAction>, key: Bytes) {
    call.OnEntries? && key in call.actions && call.actions[key].Update?
  }

  /** The versions carried by the updates of `key` a run accepts, in order. */
  ghost function UpdateVersions(s: MapState<SeqValue>, calls: seq<Call<SeqEntryAction>>, key: Bytes): seq<U64>
    decreases |calls|
  {
    if calls == [] then []
    else
      var (t, accepted) := Step(SEQ, s, calls[0]);
      (if accepted && Updates(calls[0], key) then [calls[0].actions[key].value.version] else [])
      + UpdateVersions(t, calls[1..], key)
  }

  lemma EntryStep(s: MapState<SeqValue>, call: Call<SeqEntryAction>, key: Bytes)
    requires key in s.data && key in Step(SEQ, s, call).0.data
    ensures var (t, accepted) := Step(SEQ, s, call);
            if accepted && Updates(call, key)
            then t.data[key] == call.actions[key].value && t.data[key].version == Wrap(s.data[key].version + 1)
            else t.data[key] == s.data[key]
  {
    if call.OnEntries? && Step(SEQ, s, call).1 {
      EffectIsPointwise(SEQ, s.data, call.actions, key);
      if key in call.actions {
        SeqValidity(s.data, call.actions, key);
      }
    }
  }

  /** One call: the versions it adds to `UpdateVersions`, and where it leaves the entry's version. */
  lemma UpdateVersionsStep(s: MapState<SeqValue>, calls: seq<Call<SeqEntryAction>>, key: Bytes)
    requires calls != [] && key in s.data && key in Step(SEQ, s, calls[0]).0.data
    ensures var t := Step(SEQ, s, calls[0]).0;
            var v, v' := s.data[key].version, t.data[key].version;
            var versions, later := UpdateVersions(s, calls, key), UpdateVersions(t, calls[1..], key);
            (v' == v && versions == later) || (v' == Succ(v) && versions == [v'] + later)
  {
    EntryStep(s, calls[0], key);
  }

  lemma {:induction false} EntryVersionClimbs(s: MapState<SeqValue>, calls: seq<Call<SeqEntryAction>>, key: Bytes)
    requires KeptPresent(s, calls, key)
    ensures key in Run(SEQ, s, calls).data
    ensures CountsUp(s.data[key].version, UpdateVersions(s, calls, key), Run(SEQ, s, calls).data[key].version)
    decreases |calls|
  {
    if calls != [] {
      var t := Step(SEQ, s, calls[0]).0;
      assert key in t.data;
      EntryVersionClimbs(t, calls[1..], key);
      UpdateVersionsStep(s, calls, key);
      var versions, later := UpdateVersions(s, calls, key), UpdateVersions(t, calls[1..], key);
      if versions != later {
        assert versions[1..] == later;
      }
    }
  }

  /** While an entry stays present its version counts the accepted updates of it, and the i-th of those
      carries the i-th version after the initial one. */
  lemma EntryVersionCounts(s: MapState<SeqValue>, calls: seq<Call<SeqEntryAction>>, key: Bytes)
    requires KeptPresent(s, calls, key)
    ensures key in Run(SEQ, s, calls).data
    ensures IsCount(s.data[key].version, UpdateVersions(s, calls, key), Run(SEQ, s, calls).data[key].version)
  {
    EntryVersionClimbs(s, calls, key);
    CountsUpMeans(s.data[key].version, UpdateVersions(s, calls, key), Run(SEQ, s, calls).data[key].version);
  }

  /** So while an entry stays present no update version is accepted twice, exactly if there are no more
      accepted updates than there are versions. */
  lemma UpdateVersionsDistinct(s: MapState<SeqValue>, calls: seq<Call<SeqEntryAction>>, key: Bytes)
    requires KeptPresent(s, calls, key)
    ensures Distinct(UpdateVersions(s, calls, key)) <==> |UpdateVersions(s, calls, key)| <= U64_SIZE
  {
    EntryVersionCounts(s, calls, key);
    CountIsDistinct(s.data[key].version, UpdateVersions(s, calls, key), Run(SEQ, s, calls).data[key].version);
  }

  // ----- owner changes without validation

  datatype OwnerCall = OwnerCall(newOwner: PublicKey, version: U64)

  function Deliver<V>(s: MapState<V>, calls: seq<OwnerCall>): MapState<V>
    decreases |calls|
  {
    if calls == [] then s
    else Deliver(Shell(s, ChangeOwnerWithoutValidation(calls[0].newOwner, calls[0].version)).0, calls[1..])
  }

  /** What a stream of unvalidated owner changes leaves: the largest version among the initial one and
      the delivered ones, and an owner some call of that version names. */
  lemma {:induction false} DeliverKeepsLargest<V>(s: MapState<V>, calls: seq<OwnerCall>)
    ensures var t := Deliver(s, calls);
            && t == s.(owner := t.owner, version := t.version)
            && s.version <= t.version
            && (forall c <- calls :: c.version <= t.version)
            && (if t.version == s.version then t == s else OwnerCall(t.owner, t.version) in calls)
    decreases |calls|
  {
    if calls != [] {
      var first := Shell(s, ChangeOwnerWithoutValidation(calls[0].newOwner, calls[0].version)).0;
      DeliverKeepsLargest(first, calls[1..]);
      assert calls == [calls[0]] + calls[1..];
    }
  }

  /** The calls with the largest version, if that is above the initial one, name one owner. */
  ghost predicate WinnerAgreed<V>(s: MapState<V>, calls: set<OwnerCall>) {
    forall a <- calls, b <- calls ::
      a.version == b.version && s.version < a.version && (forall c <- calls :: c.version <= a.version)
      ==> a.newOwner == b.newOwner
  }

  /** A set of unvalidated owner changes leaves the same Map in every delivery order, with any
      repetition, exactly if the calls with the winning version agree on the owner. Distinct versions
      are enough. */
  lemma OwnerChangesConverge<V>(s: MapState<V>, calls: set<OwnerCall>)
    ensures OrderIrrelevant(calls, stream => Deliver(s, stream)) <==> WinnerAgreed(s, calls)
    ensures (forall a <- calls, b <- calls :: a.version == b.version ==> a == b)
            ==> OrderIrrelevant(calls, stream => Deliver(s, stream))
  {
    if WinnerAgreed(s, calls) {
      forall a, b | IsDeliveryOf(a, calls) && IsDeliveryOf(b, calls)
        ensures Deliver(s, a) == Deliver(s, b)
      {
        SameDeliveries(s, a, b, calls);
      }
    } else {
      var a, b := Rivals(s, calls);
      var rest := SomeDelivery(calls);
      OneWinner(s, a, rest, calls);
      OneWinner(s, b, rest, calls);
    }
  }

  /** Two calls that would both win, with different owners. */
  lemma Rivals<V>(s: MapState<V>, calls: set<OwnerCall>) returns (a: OwnerCall, b: OwnerCall)
    requires !WinnerAgreed(s, calls)
    ensures a in calls && b in calls && a.newOwner != b.newOwner
    ensures s.version < a.version == b.version && forall c <- calls :: c.version <= a.version
  {
    a, b :| a in calls && b in calls && a.version == b.version && s.version < a.version
            && (forall c <- calls :: c.version <= a.version) && a.newOwner != b.newOwner;
  }

  lemma SameDeliveries<V>(s: MapState<V>, a: seq<OwnerCall>, b: seq<OwnerCall>, calls: set<OwnerCall>)
    requires WinnerAgreed(s, calls) && IsDeliveryOf(a, calls) && IsDeliveryOf(b, calls)
    ensures Deliver(s, a) == Deliver(s, b)
  {
    DeliverKeepsLargest(s, a);
    DeliverKeepsLargest(s, b);
    var x, y := Deliver(s, a), Deliver(s, b);
    if x.version > s.version {
      assert OwnerCall(x.owner, x.version) in calls;
    }
    if y.version > s.version {
      assert OwnerCall(y.owner, y.version) in calls;
    }
  }

  lemma OneWinner<V>(s: MapState<V>, a: OwnerCall, rest: seq<OwnerCall>, calls: set<OwnerCall>)
    requires IsDeliveryOf(rest, calls) && a in calls
    requires s.version < a.version && forall c <- calls :: c.version <= a.version
    ensures IsDeliveryOf([a] + rest, calls)
    ensures Deliver(s, [a] + rest).owner == a.newOwner
  {
    var first := Shell(s, ChangeOwnerWithoutValidation(a.newOwner, a.version)).0;
    assert ([a] + rest)[1..] == rest;
    DeliverKeepsLargest(first, rest);
  }
}
