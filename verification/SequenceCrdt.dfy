/** A replica of a Sequence: three replicated lists that record each other's lengths
    (src/sequence/seq_crdt.rs). */
module SequenceCrdt {
  import opened Common
  import opened LSeq
  import opened SequenceTypes

  function ToAbsoluteIndex(index: Index, count: nat): Option<nat> {
    match index
    case FromStart(i) => if i <= count then Some(i) else None
    case FromEnd(i) => if i <= count then Some(count - i) else None
  }

  /** The items from place `i` on whose place lies between the bounds. */
  function Pick<T>(items: seq<T>, i: nat, start: nat, end: nat): seq<T>
    requires i <= |items|
    decreases |items| - i
  {
    if i == |items| then []
    else (if start <= i < end then [items[i]] else []) + Pick(items, i + 1, start, end)
  }

  /** The fields of a replica and the questions they answer. */
  datatype Replica<M> = Replica(address: Address, data: LSeq<Entry>, permissions: LSeq<Perms<M>>, owners: LSeq<Owner>)
  {
    function Get(index: Index): Option<Entry> {
      match ToAbsoluteIndex(index, data.Len())
      case None => None
      case Some(i) => data.Get(i)
    }

    function LastEntry(): Option<Entry> {
      data.Last()
    }

    function Permissions(index: Index): Option<Perms<M>> {
      match ToAbsoluteIndex(index, permissions.Len())
      case None => None
      case Some(i) => permissions.Get(i)
    }

    function Owner(index: Index): Option<Owner> {
      match ToAbsoluteIndex(index, owners.Len())
      case None => None
      case Some(i) => owners.Get(i)
    }

    function InRange(start: Index, end: Index): Option<seq<Entry>> {
      match (ToAbsoluteIndex(start, data.Len()), ToAbsoluteIndex(end, data.Len()))
      case (Some(startIndex), Some(endIndex)) =>
        var range := Pick(Values(data.elems), 0, startIndex, endIndex);
        if range == [] then None else Some(range)
      case _ => None
    }

    function CheckIsLastOwner(requester: PublicKey): Result<()> {
      match Owner(FromEnd(1))
      case None => Err(InvalidOwners)
      case Some(owner) => if owner.publicKey == requester then Ok(()) else Err(AccessDenied)
    }

    /** The last owner may do anything; others need the last entry of the permissions history. */
    function CheckPerm(requester: PublicKey, allows: Perms<M> -> Result<()>): Result<()> {
      match CheckIsLastOwner(requester)
      case Ok(_) => Ok(())
      case Err(_) =>
        match Permissions(FromEnd(1))
        case None => Err(AccessDenied)
        case Some(last) => allows(last)
    }

    function AppendEntry(entry: Entry): (Replica<M>, Op<Entry>) {
      var (list, op) := data.Append(entry);
      (this.(data := list), op)
    }

    function AppendOwner(publicKey: PublicKey): (Replica<M>, Op<Owner>) {
      var (list, op) := owners.Append(SequenceTypes.Owner.Owner(publicKey, data.Len(), permissions.Len()));
      (this.(owners := list), op)
    }

    /** A new permissions entry, which its caller stamps with the current lengths. */
    function AppendPermissions(matrix: M): (Replica<M>, Op<Perms<M>>) {
      var (list, op) := permissions.Append(Perms(matrix, data.Len(), owners.Len()));
      (this.(permissions := list), op)
    }
  }

  function Fresh<M>(actor: PublicKey, address: Address): Replica<M> {
    Replica(address, LSeq(actor, []), LSeq(actor, []), LSeq(actor, []))
  }

  /** The insert that appends an entry, under the next identifier. */
  function NextEntry<M>(r: Replica<M>, entry: Entry): Op<Entry> {
    Insert(Mint(r.data.elems, r.data.actor), entry)
  }

  /** The inserts that record a new owner and new permissions, with the current lengths. */
  function NextOwner<M>(r: Replica<M>, owner: PublicKey): Op<Owner> {
    Insert(Mint(r.owners.elems, r.owners.actor),
           SequenceTypes.Owner.Owner(owner, |r.data.elems|, |r.permissions.elems|))
  }

  function NextPermissions<M>(r: Replica<M>, matrix: M): Op<Perms<M>> {
    Insert(Mint(r.permissions.elems, r.permissions.actor), Perms(matrix, |r.data.elems|, |r.owners.elems|))
  }

  /** The replica as an object, whose lists its operations replace. */
  class SequenceCrdt<M> {
    var address: Address
    var data: LSeq<Entry>
    var permissions: LSeq<Perms<M>>
    var owners: LSeq<Owner>

    function View(): Replica<M>
      reads this
    {
      Replica(address, data, permissions, owners)
    }

    constructor (actor: PublicKey, address: Address)
      ensures View() == Fresh(actor, address)
    {
      this.address := address;
      data, permissions, owners := LSeq(actor, []), LSeq(actor, []), LSeq(actor, []);
    }

    method Append(entry: Entry) returns (op: Op<Entry>)
      modifies this`data
      ensures View() == old(View()).(data := old(data).Apply(op))
      ensures op == NextEntry(old(View()), entry)
    {
      var (list, minted) := data.Append(entry);
      data := list;
      op := minted;
    }

    method ApplyCrdtOp(op: Op<Entry>)
      modifies this`data
      ensures View() == old(View()).(data := old(data).Apply(op))
    {
      data := data.Apply(op);
    }

    method AppendPermissions(permissions: Perms<M>) returns (op: Op<Perms<M>>)
      modifies this`permissions
      ensures View() == old(View()).(permissions := old(this.permissions).Apply(op))
      ensures op == Insert(Mint(old(this.permissions).elems, old(this.permissions).actor), permissions)
    {
      var (list, minted) := this.permissions.Append(permissions);
      this.permissions := list;
      op := minted;
    }

    method ApplyCrdtPermsOp(op: Op<Perms<M>>)
      modifies this`permissions
      ensures View() == old(View()).(permissions := old(permissions).Apply(op))
    {
      permissions := permissions.Apply(op);
    }

    method AppendOwner(publicKey: PublicKey) returns (op: Op<Owner>)
      modifies this`owners
      ensures View() == old(View()).(owners := old(owners).Apply(op))
      ensures op == NextOwner(old(View()), publicKey)
    {
      var (list, minted) := owners.Append(SequenceTypes.Owner.Owner(publicKey, data.Len(), permissions.Len()));
      owners := list;
      op := minted;
    }

    method ApplyCrdtOwnerOp(op: Op<Owner>)
      modifies this`owners
      ensures View() == old(View()).(owners := old(owners).Apply(op))
    {
      owners := owners.Apply(op);
    }
  }

  // ----- appending

  /** What is appended at a replica is exactly what it broadcasts: an insert under a fresh identifier, of the
      entry or of a record with the current lengths of the other two lists. */
  lemma BroadcastIsApplied<M>(r: Replica<M>, entry: Entry, owner: PublicKey, matrix: M)
    ensures var (t, op) := r.AppendEntry(entry);
            op == NextEntry(r, entry) && t == r.(data := r.data.Apply(op))
    ensures var (t, op) := r.AppendOwner(owner);
            op == NextOwner(r, owner) && t == r.(owners := r.owners.Apply(op))
    ensures var (t, op) := r.AppendPermissions(matrix);
            op == NextPermissions(r, matrix) && t == r.(permissions := r.permissions.Apply(op))
  {
  }

  // ----- reads

  lemma {:induction false} PickIsSlice<T>(items: seq<T>, i: nat, start: nat, end: nat)
    requires i <= |items| && start <= |items| && end <= |items|
    ensures var from := if start < i then i else start;
            Pick(items, i, start, end) == if from < end then items[from..end] else []
    decreases |items| - i
  {
    if i < |items| {
      PickIsSlice(items, i + 1, start, end);
    }
  }

  /** What an index names in a list: it counts from the start, or back from the end, and names nothing
      beyond either. */
  function Named<T>(s: seq<Elem<T>>, index: Index): Option<T> {
    match index
    case FromStart(i) => if i < |s| then Some(s[i].value) else None
    case FromEnd(i) => if 0 < i <= |s| then Some(s[|s| - i].value) else None
  }

  /** Reads by index look the index up in their list, and the last entry is the first from the end. */
  lemma ReadsAreLookups<M>(r: Replica<M>, index: Index)
    ensures r.Get(index) == Named(r.data.elems, index)
    ensures r.Owner(index) == Named(r.owners.elems, index)
    ensures r.Permissions(index) == Named(r.permissions.elems, index)
    ensures r.LastEntry() == Named(r.data.elems, FromEnd(1))
  {
  }

  lemma LastOwnerIsChecked<M>(r: Replica<M>, requester: PublicKey)
    ensures r.CheckIsLastOwner(requester) ==
        if r.owners.elems == [] then Err(InvalidOwners)
        else if r.owners.elems[|r.owners.elems| - 1].value.publicKey == requester then Ok(())
        else Err(AccessDenied)
  {
  }

  /** The values at the places from `a` up to `b`, if there are any and `b` is within the list. */
  function Slice<T>(s: seq<Elem<T>>, a: int, b: int): Option<seq<T>> {
    if 0 <= a < b <= |s| then Some(Values(s)[a..b]) else None
  }

  /** A range is the slice between its two bounds, counted from either end; there is none if a bound is out of
      range or the slice is empty. */
  lemma InRangeIsSlice<M>(r: Replica<M>, a: nat, b: nat)
    ensures var (s, n) := (r.data.elems, |r.data.elems|);
            && r.InRange(FromStart(a), FromStart(b)) == Slice(s, a, b)
            && r.InRange(FromStart(a), FromEnd(b)) == Slice(s, a, n - b)
            && r.InRange(FromEnd(a), FromStart(b)) == Slice(s, n - a, b)
            && r.InRange(FromEnd(a), FromEnd(b)) == Slice(s, n - a, n - b)
  {
    RangeBetween(r, FromStart(a), FromStart(b));
    RangeBetween(r, FromStart(a), FromEnd(b));
    RangeBetween(r, FromEnd(a), FromStart(b));
    RangeBetween(r, FromEnd(a), FromEnd(b));
  }

  lemma RangeBetween<M>(r: Replica<M>, start: Index, end: Index)
    ensures var a, b := ToAbsoluteIndex(start, r.data.Len()), ToAbsoluteIndex(end, r.data.Len());
            r.InRange(start, end) ==
            if a.Some? && b.Some? && a.value < b.value then Some(Values(r.data.elems)[a.value..b.value]) else None
  {
    var a, b := ToAbsoluteIndex(start, r.data.Len()), ToAbsoluteIndex(end, r.data.Len());
    if a.Some? && b.Some? {
      PickIsSlice(Values(r.data.elems), 0, a.value, b.value);
    }
  }

  function OrEmpty(range: Option<seq<Entry>>): seq<Entry> {
    if range.Some? then range.value else []
  }

  /** Adjacent ranges concatenate, however their bounds are given. */
  lemma AdjacentRanges<M>(r: Replica<M>, start: Index, middle: Index, end: Index)
    requires var a, b := ToAbsoluteIndex(start, r.data.Len()), ToAbsoluteIndex(middle, r.data.Len());
             var c := ToAbsoluteIndex(end, r.data.Len());
             a.Some? && b.Some? && c.Some? && a.value <= b.value <= c.value
    ensures OrEmpty(r.InRange(start, middle)) + OrEmpty(r.InRange(middle, end)) == OrEmpty(r.InRange(start, end))
  {
    var a, b := ToAbsoluteIndex(start, r.data.Len()).value, ToAbsoluteIndex(middle, r.data.Len()).value;
    var c := ToAbsoluteIndex(end, r.data.Len()).value;
    var items := Values(r.data.elems);
    RangeOrEmpty(r, start, middle);
    RangeOrEmpty(r, middle, end);
    RangeOrEmpty(r, start, end);
    SlicesJoin(items, a, b, c);
  }

  lemma SlicesJoin<T>(items: seq<T>, a: nat, b: nat, c: nat)
    requires a <= b <= c <= |items|
    ensures items[a..b] + items[b..c] == items[a..c]
  {
  }

  lemma RangeOrEmpty<M>(r: Replica<M>, start: Index, end: Index)
    requires var a, b := ToAbsoluteIndex(start, r.data.Len()), ToAbsoluteIndex(end, r.data.Len());
             a.Some? && b.Some? && a.value <= b.value
    ensures OrEmpty(r.InRange(start, end)) ==
        Values(r.data.elems)[ToAbsoluteIndex(start, r.data.Len()).value..ToAbsoluteIndex(end, r.data.Len()).value]
  {
    RangeBetween(r, start, end);
  }

  /** Counting from the start or from the end makes no difference to any read, and every index of one
      kind that is in range has a counterpart of the other. */
  lemma IndexKindsAgree<M>(r: Replica<M>, i: nat, other: Index)
    requires i <= r.data.Len()
    ensures var s, e := FromStart(i), FromEnd(r.data.Len() - i);
            && r.Get(s) == r.Get(e)
            && r.InRange(s, other) == r.InRange(e, other)
            && r.InRange(other, s) == r.InRange(other, e)
    ensures r.Get(FromStart(i)) == if i < r.data.Len() then Some(Values(r.data.elems)[i]) else None
    ensures r.LastEntry() == r.Get(FromEnd(1))
  {
  }
}
