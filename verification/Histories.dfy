/** What the histories of a Sequence keep: earlier ones survive inside later ones. */
module Histories {
  import opened Common
  import opened LSeq
  import opened SequenceTypes
  import opened SequenceCrdt
  import opened Sequence

  // ----- subsequences

  /** `a` can be had from `b` by leaving items out. */
  ghost predicate Within<T(!new)>(a: seq<T>, b: seq<T>)
    decreases |b|
  {
    a == [] || (b != [] && ((a[0] == b[0] && Within(a[1..], b[1..])) || Within(a, b[1..])))
  }

  lemma {:induction false} WithinItself<T(!new)>(a: seq<T>)
    ensures Within(a, a)
  {
    if a != [] {
      WithinItself(a[1..]);
    }
  }

  lemma {:induction false} WithinTransitive<T(!new)>(a: seq<T>, b: seq<T>, c: seq<T>)
    requires Within(a, b) && Within(b, c)
    ensures Within(a, c)
    decreases |c|
  {
    if a != [] && b != [] {
      if b[0] == c[0] && Within(b[1..], c[1..]) {
        if a[0] == b[0] && Within(a[1..], b[1..]) {
          WithinTransitive(a[1..], b[1..], c[1..]);
        } else {
          WithinTransitive(a, b[1..], c[1..]);
        }
      } else {
        WithinTransitive(a, b, c[1..]);
      }
    }
  }

  lemma {:induction false} WithinIsShorter<T(!new)>(a: seq<T>, b: seq<T>)
    requires Within(a, b)
    ensures |a| <= |b|
    decreases |b|
  {
    if a != [] {
      if a[0] == b[0] && Within(a[1..], b[1..]) {
        WithinIsShorter(a[1..], b[1..]);
      } else {
        WithinIsShorter(a, b[1..]);
      }
    }
  }

  /** A list that has had an operation applied still contains its earlier values in order, exactly
      unless the operation deleted one of them. */
  lemma {:induction false} HistoryKept<T(!new)>(s: seq<Elem<T>>, op: Op<T>)
    requires Sorted(s)
    ensures Within(Values(s), Values(ApplyOp(s, op))) <==> !(op.Delete? && Find(s, op.id).Some?)
    ensures |ApplyOp(s, op)| == |s| + (if op.Insert? && Find(s, op.id).None? then 1
                                       else if op.Delete? && Find(s, op.id).Some? then -1 else 0)
  {
    var r := ApplyOp(s, op);
    if s == [] || Before(op.id, s[0].id) {
      BelowHeadNotFound(s, op.id);
      WithinItself(Values(s));
      if op.Insert? {
        assert r[1..] == s;
        assert Values(r)[1..] == Values(s);
      }
    } else if s[0].id == op.id {
      WithinItself(Values(s));
      if op.Delete? && Within(Values(s), Values(r)) {
        WithinIsShorter(Values(s), Values(r));
      }
    } else {
      HistoryKept(s[1..], op);
      assert r[1..] == ApplyOp(s[1..], op);
      assert Values(s)[1..] == Values(s[1..]) && Values(r)[1..] == Values(r[1..]);
      if op.Delete? && Find(s, op.id).Some? && Within(Values(s), Values(r)) {
        WithinIsShorter(Values(s), Values(r));
      }
    }
  }

  ghost predicate DataSorted(d: DataState) {
    && Sorted(d.Entries().elems)
    && Sorted(d.Owners().elems)
    && (d.Public? ==> Sorted(d.pub.permissions.elems))
    && (d.Private? ==> Sorted(d.priv.permissions.elems))
  }

  function RunCalls(d: DataState, calls: seq<Call>): DataState
    decreases |calls|
  {
    if calls == [] then d else RunCalls(Step(d, calls[0]).0, calls[1..])
  }

  lemma StepKeepsSorted(d: DataState, call: Call)
    requires DataSorted(d)
    ensures DataSorted(Step(d, call).0)
    ensures d.Public? ==> Step(d, call).0.Public? && Step(d, call).0.pub.address == d.pub.address
    ensures d.Private? ==> Step(d, call).0.Private? && Step(d, call).0.priv.address == d.priv.address
  {
    match call
    case Append(entry) => ApplyMeaning(d.Entries().elems, d.Entries().Append(entry).1);
    case ApplyCrdtOp(op) => ApplyMeaning(d.Entries().elems, op);
    case SetOwner(owner) => ApplyMeaning(d.Owners().elems, d.Owners().Append(d.OwnerRecord(owner)).1);
    case ApplyCrdtOwnerOp(op) => ApplyMeaning(d.Owners().elems, op);
    case SetPubPermissions(matrix) =>
      if d.Public? {
        ApplyMeaning(d.pub.permissions.elems, d.pub.AppendPermissions(matrix).1);
      }
    case ApplyCrdtPubPermsOp(op) =>
      if d.Public? {
        ApplyMeaning(d.pub.permissions.elems, op);
      }
    case SetPrivatePermissions(matrix) =>
      if d.Private? {
        ApplyMeaning(d.priv.permissions.elems, d.priv.AppendPermissions(matrix).1);
      }
    case ApplyCrdtPrivatePermsOp(op) =>
      if d.Private? {
        ApplyMeaning(d.priv.permissions.elems, op);
      }
  }

  function PubHistory(d: DataState): seq<PublicPermissions>
    requires d.Public?
  {
    Values(d.pub.permissions.elems)
  }

  lemma PublicPermissionsStep(d: DataState, call: Call)
    requires DataSorted(d) && d.Public?
    ensures Step(d, call).0.Public? && Within(PubHistory(d), PubHistory(Step(d, call).0))
  {
    match call
    case SetPubPermissions(matrix) => HistoryKept(d.pub.permissions.elems, d.pub.AppendPermissions(matrix).1);
    case ApplyCrdtPubPermsOp(op) =>
      WithinItself(PubHistory(d));
      HistoryKept(d.pub.permissions.elems, op);
    case _ => WithinItself(PubHistory(d));
  }

  /** Whatever is called, local or remote, no call removes anything from the permissions history of a
      public Sequence. */
  lemma {:induction false} PublicPermissionsSurvive(d: DataState, calls: seq<Call>)
    requires DataSorted(d) && d.Public?
    ensures RunCalls(d, calls).Public?
    ensures Within(PubHistory(d), PubHistory(RunCalls(d, calls)))
    decreases |calls|
  {
    if calls == [] {
      WithinItself(PubHistory(d));
    } else {
      var next := Step(d, calls[0]).0;
      StepKeepsSorted(d, calls[0]);
      PublicPermissionsStep(d, calls[0]);
      PublicPermissionsSurvive(next, calls[1..]);
      WithinTransitive(PubHistory(d), PubHistory(next), PubHistory(RunCalls(next, calls[1..])));
    }
  }

  /** A call that does not take in a deletion of entries or owners. */
  predicate OnlyInserts(call: Call) {
    (call.ApplyCrdtOp? ==> call.entryOp.Insert?) && (call.ApplyCrdtOwnerOp? ==> call.ownerOp.Insert?)
  }

  function EntryHistory(d: DataState): seq<Entry> {
    Values(d.Entries().elems)
  }

  function OwnerHistory(d: DataState): seq<Owner> {
    Values(d.Owners().elems)
  }

  lemma EntriesAndOwnersStep(d: DataState, call: Call)
    requires DataSorted(d) && OnlyInserts(call)
    ensures Within(EntryHistory(d), EntryHistory(Step(d, call).0))
    ensures Within(OwnerHistory(d), OwnerHistory(Step(d, call).0))
  {
    WithinItself(EntryHistory(d));
    WithinItself(OwnerHistory(d));
    match call
    case Append(entry) => HistoryKept(d.Entries().elems, d.Entries().Append(entry).1);
    case ApplyCrdtOp(op) => HistoryKept(d.Entries().elems, op);
    case SetOwner(owner) => HistoryKept(d.Owners().elems, d.Owners().Append(d.OwnerRecord(owner)).1);
    case ApplyCrdtOwnerOp(op) => HistoryKept(d.Owners().elems, op);
    case _ =>
  }

  /** Entries and owners survive in the same way when the operations received are all inserts. */
  lemma {:induction false} EntriesAndOwnersSurvive(d: DataState, calls: seq<Call>)
    requires DataSorted(d) && forall i | 0 <= i < |calls| :: OnlyInserts(calls[i])
    ensures Within(EntryHistory(d), EntryHistory(RunCalls(d, calls)))
    ensures Within(OwnerHistory(d), OwnerHistory(RunCalls(d, calls)))
    decreases |calls|
  {
    if calls == [] {
      WithinItself(EntryHistory(d));
      WithinItself(OwnerHistory(d));
    } else {
      var next, last := Step(d, calls[0]).0, RunCalls(d, calls);
      StepKeepsSorted(d, calls[0]);
      EntriesAndOwnersStep(d, calls[0]);
      EntriesAndOwnersSurvive(next, calls[1..]);
      WithinTransitive(EntryHistory(d), EntryHistory(next), EntryHistory(last));
      WithinTransitive(OwnerHistory(d), OwnerHistory(next), OwnerHistory(last));
    }
  }
}
