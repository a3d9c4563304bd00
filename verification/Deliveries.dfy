/** Streams that deliver a set of messages in some order, any of them more than once. */
module Deliveries {

  ghost predicate IsDeliveryOf<T(!new)>(stream: seq<T>, messages: set<T>) {
    forall m :: m in stream <==> m in messages
  }

  /** Every delivery of the messages has the same result. */
  ghost predicate OrderIrrelevant<T(!new), R>(messages: set<T>, result: seq<T> -> R) {
    forall a, b :: IsDeliveryOf(a, messages) && IsDeliveryOf(b, messages) ==> result(a) == result(b)
  }

  lemma {:induction false} SomeDelivery<T(!new)>(messages: set<T>) returns (stream: seq<T>)
    ensures IsDeliveryOf(stream, messages)
    decreases messages
  {
    stream := [];
    if m :| m in messages {
      var rest := SomeDelivery(messages - {m});
      stream := [m] + rest;
    }
  }
}
