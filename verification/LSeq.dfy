/** The replicated list of the `crdts` library, as far as this repository relies on it: a list kept in
    the order of its identifiers, which inserts an element unless its identifier is already there and
    appends under an identifier above all those present. How the library allocates identifiers is not
    part of this model. */
module LSeq {
  import opened Common

  /** Identifiers are ordered by rank, then by the actor that minted them. */
  datatype Ident = Ident(rank: nat, actor: PublicKey)

  predicate Before(a: Ident, b: Ident) {
    a.rank < b.rank || (a.rank == b.rank && a.actor < b.actor)
  }

  datatype Elem<+T> = Elem(id: Ident, value: T)

  datatype Op<+T> = Insert(id: Ident, value: T) | Delete(id: Ident)

  ghost predicate Sorted<T>(s: seq<Elem<T>>) {
    forall i, j | 0 <= i < j < |s| :: Before(s[i].id, s[j].id)
  }

  function ApplyOp<T>(s: seq<Elem<T>>, op: Op<T>): seq<Elem<T>> {
    match op
    case Insert(id, value) =>
      if s == [] || Before(id, s[0].id) then [Elem(id, value)] + s
      else if s[0].id == id then s
      else [s[0]] + ApplyOp(s[1..], op)
    case Delete(id) =>
      if s == [] || Before(id, s[0].id) then s
      else if s[0].id == id then s[1..]
      else [s[0]] + ApplyOp(s[1..], op)
  }

  function ApplyAll<T>(s: seq<Elem<T>>, ops: seq<Op<T>>): seq<Elem<T>>
    decreases |ops|
  {
    if ops == [] then s else ApplyAll(ApplyOp(s, ops[0]), ops[1..])
  }

  /** An identifier above all those in the list. */
  function Mint<T>(s: seq<Elem<T>>, actor: PublicKey): Ident {
    Ident(if s == [] then 0 else s[|s| - 1].id.rank + 1, actor)
  }

  function Values<T>(s: seq<Elem<T>>): (values: seq<T>)
    ensures |values| == |s|
    ensures forall i | 0 <= i < |s| :: values[i] == s[i].value
  {
    if s == [] then [] else [s[0].value] + Values(s[1..])
  }

  /** One replica of the list. */
  datatype LSeq<T> = LSeq(actor: PublicKey, elems: seq<Elem<T>>) {
    function Len(): nat {
      |elems|
    }

    function Get(i: nat): Option<T> {
      if i < |elems| then Some(elems[i].value) else None
    }

    function Last(): Option<T> {
      if elems == [] then None else Some(elems[|elems| - 1].value)
    }

    function Apply(op: Op<T>): LSeq<T> {
      LSeq(actor, ApplyOp(elems, op))
    }

    /** The list with a value at its end, and the operation that puts it there on other replicas. */
    function Append(value: T): (LSeq<T>, Op<T>) {
      var op := Insert(Mint(elems, actor), value);
      (Apply(op), op)
    }
  }

  // ----- contents

  /** The value under an identifier. */
  function Find<T>(s: seq<Elem<T>>, id: Ident): Option<T> {
    if s == [] then None
    else if s[0].id == id then Some(s[0].value)
    else Find(s[1..], id)
  }

  lemma {:induction false} FoundAt<T>(s: seq<Elem<T>>, id: Ident)
    ensures Find(s, id).Some? <==> exists i | 0 <= i < |s| :: s[i].id == id
    ensures Find(s, id).Some? ==> exists i | 0 <= i < |s| :: s[i] == Elem(id, Find(s, id).value)
  {
    if s != [] {
      FoundAt(s[1..], id);
      if i :| 0 <= i < |s| && s[i].id == id {
        if i > 0 {
          assert s[1..][i - 1].id == id;
        }
      }
    }
  }

  lemma {:induction false} BelowHeadNotFound<T>(s: seq<Elem<T>>, id: Ident)
    requires Sorted(s) && (s == [] || Before(id, s[0].id))
    ensures Find(s, id) == None
  {
    FoundAt(s, id);
  }

  /** A sorted list is determined by its contents. */
  lemma {:induction false} SameContents<T>(s: seq<Elem<T>>, t: seq<Elem<T>>)
    requires Sorted(s) && Sorted(t)
    requires forall id :: Find(s, id) == Find(t, id)
    ensures s == t
    decreases |s| + |t|
  {
    if s != [] && (t == [] || Before(s[0].id, t[0].id)) {
      HeadOnlyInOne(s, t);
    } else if t != [] && (s == [] || Before(t[0].id, s[0].id)) {
      HeadOnlyInOne(t, s);
    } else if s != [] {
      assert s[0].id == t[0].id;
      assert Find(s, s[0].id) == Find(t, s[0].id);
      forall id ensures Find(s[1..], id) == Find(t[1..], id) {
        assert Find(s, id) == Find(t, id);
        if id == s[0].id {
          FoundAt(s[1..], id);
          FoundAt(t[1..], id);
        }
      }
      SameContents(s[1..], t[1..]);
      assert s == [s[0]] + s[1..];
      assert t == [t[0]] + t[1..];
    }
  }

  lemma HeadOnlyInOne<T>(s: seq<Elem<T>>, t: seq<Elem<T>>)
    requires Sorted(t) && s != [] && (t == [] || Before(s[0].id, t[0].id))
    ensures Find(s, s[0].id).Some? && Find(t, s[0].id).None?
  {
    BelowHeadNotFound(t, s[0].id);
  }

  /** What an operation makes of the contents under one identifier: an insert adds its value unless the
      identifier is taken, a delete removes whatever is there, and other identifiers are untouched. */
  function Outcome<T>(found: Option<T>, op: Op<T>, id: Ident): Option<T> {
    if id != op.id then found
    else if op.Delete? then None
    else if found.Some? then found
    else Some(op.value)
  }

  /** Applying an operation to a sorted list has exactly that outcome, and the list stays sorted. */
  lemma {:induction false} ApplyMeaning<T>(s: seq<Elem<T>>, op: Op<T>)
    requires Sorted(s)
    ensures Sorted(ApplyOp(s, op))
    ensures forall id :: Find(ApplyOp(s, op), id) == Outcome(Find(s, id), op, id)
  {
    var r := ApplyOp(s, op);
    if s == [] || Before(op.id, s[0].id) {
      BelowHeadNotFound(s, op.id);
      if op.Insert? {
        assert r[1..] == s;
      }
    } else if s[0].id == op.id {
      FoundAt(s[1..], op.id);
    } else {
      ApplyMeaning(s[1..], op);
      var rest := ApplyOp(s[1..], op);
      assert r[1..] == rest;
      forall i | 0 <= i < |rest| ensures Before(s[0].id, rest[i].id) {
        FoundAt(rest, rest[i].id);
        FoundAt(s[1..], rest[i].id);
      }
    }
  }
}
