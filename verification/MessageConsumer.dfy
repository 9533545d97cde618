/**
 The consumer loop (internal/shared/messaging/consumer.go): prefetch one, ack on success, nack with requeue on error.
 A requeued message goes back to the head of its queue.
 */
module MessageConsumer {

  /** Deliveries that ended in an ack. */
  function Acks(outcomes: seq<bool>): nat {
    if outcomes == [] then 0 else Acks(outcomes[..|outcomes| - 1]) + if outcomes[|outcomes| - 1] then 1 else 0
  }

  lemma {:induction false} AcksPrefix(outcomes: seq<bool>, i: nat)
    requires i <= |outcomes|
    ensures Acks(outcomes[..i]) <= Acks(outcomes) <= Acks(outcomes[..i]) + |outcomes| - i
    decreases |outcomes|
  {
    if i == |outcomes| {
      assert outcomes[..i] == outcomes;
    } else {
      var front := outcomes[..|outcomes| - 1];
      assert front[..i] == outcomes[..i];
      AcksPrefix(front, i);
    }
  }

  /**
   `outcomes[i]` is whether the handler succeeds on the i-th delivery. The i-th delivery is the message after as many
   acks as there were before it: messages are taken in order, each again and again until its first success, and what
   is acked together with what is left is the original queue.
   */
  method Consume<Message>(queue: seq<Message>, outcomes: seq<bool>)
    returns (deliveries: seq<Message>, acked: seq<Message>, left: seq<Message>)
    ensures |deliveries| <= |outcomes|
    ensures acked + left == queue && |acked| == Acks(outcomes[..|deliveries|])
    ensures forall i :: 0 <= i < |deliveries| ==>
              Acks(outcomes[..i]) < |queue| && deliveries[i] == queue[Acks(outcomes[..i])]
    ensures |deliveries| < |outcomes| ==> left == []
  {
    deliveries, acked, left := [], [], queue;
    while |deliveries| < |outcomes| && left != []
      invariant |deliveries| <= |outcomes|
      invariant acked + left == queue && |acked| == Acks(outcomes[..|deliveries|])
      invariant forall i :: 0 <= i < |deliveries| ==>
                Acks(outcomes[..i]) < |queue| && deliveries[i] == queue[Acks(outcomes[..i])]
      decreases |outcomes| - |deliveries|
    {
      var n := |deliveries|;
      var message := left[0];
      assert queue[|acked|] == message;
      assert outcomes[..n + 1][..n] == outcomes[..n];
      left := left[1..];                             // delivered, unacknowledged
      deliveries := deliveries + [message];
      if outcomes[n] {
        acked := acked + [message];
      } else {
        left := [message] + left;                    // requeued at the head
      }
    }
  }

  /** Two deliveries carry the same position of the queue exactly when no ack lies between them. */
  lemma RedeliveredUntilAcked(outcomes: seq<bool>, i: nat, j: nat)
    requires i <= j <= |outcomes|
    ensures Acks(outcomes[..i]) == Acks(outcomes[..j]) <==> forall k :: i <= k < j ==> !outcomes[k]
    decreases j
  {
    if i < j {
      assert outcomes[..j][..j - 1] == outcomes[..j - 1];
      RedeliveredUntilAcked(outcomes, i, j - 1);
      AcksPrefix(outcomes[..j - 1], i);
      assert outcomes[..j - 1][..i] == outcomes[..i];
    }
  }
}
