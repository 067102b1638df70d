/** `server.send(client, message)`, abstracted: every send appends the
    recipient's id and the message to an outbox. Serialisation, the socket
    and send failures are not modelled. */
module Outbox {
  import opened Sequences
  import opened SharedAssets

  datatype Envelope = Envelope(to: ClientId, message: Message)

  /** One `message` to each recipient, in list order. */
  function SendAll(recipients: seq<ClientId>, message: Message): seq<Envelope> {
    if recipients == [] then []
    else [Envelope(recipients[0], message)] + SendAll(recipients[1..], message)
  }

  /** Exactly one envelope per recipient, in order, all carrying the same message. */
  lemma {:induction false} SendAllAt(recipients: seq<ClientId>, message: Message)
    ensures |SendAll(recipients, message)| == |recipients|
    ensures forall i :: 0 <= i < |recipients| ==> SendAll(recipients, message)[i] == Envelope(recipients[i], message)
  {
    if recipients != [] {
      SendAllAt(recipients[1..], message);
    }
  }

  lemma {:induction false} SendAllConcat(a: seq<ClientId>, b: seq<ClientId>, message: Message)
    ensures SendAll(a + b, message) == SendAll(a, message) + SendAll(b, message)
  {
    if a == [] {
      assert a + b == b;
    } else {
      assert (a + b)[1..] == a[1..] + b;
      SendAllConcat(a[1..], b, message);
    }
  }

  /** The step of a loop that sends to `recipients[i]`. */
  lemma {:induction false} SendAllStep(recipients: seq<ClientId>, i: nat, message: Message)
    requires i < |recipients|
    ensures SendAll(recipients[..i + 1], message) == SendAll(recipients[..i], message) + [Envelope(recipients[i], message)]
  {
    assert recipients[..i + 1] == recipients[..i] + [recipients[i]];
    SendAllConcat(recipients[..i], [recipients[i]], message);
  }

  /** The step of a loop that sends to `recipients[i]` unless it is `skip`. */
  lemma {:induction false} WithoutStep(recipients: seq<ClientId>, i: nat, skip: ClientId)
    requires i < |recipients|
    ensures recipients[i] == skip ==> Without(recipients[..i + 1], skip) == Without(recipients[..i], skip)
    ensures recipients[i] != skip ==> Without(recipients[..i + 1], skip) == Without(recipients[..i], skip) + [recipients[i]]
  {
    assert recipients[..i + 1] == recipients[..i] + [recipients[i]];
    WithoutConcat(recipients[..i], [recipients[i]], skip);
    assert Without(recipients[..i], skip) + [] == Without(recipients[..i], skip);
  }

  /** One more recipient at the end adds one envelope at the end. */
  lemma {:induction false} SendAllSnoc(recipients: seq<ClientId>, last: ClientId, message: Message)
    ensures SendAll(recipients + [last], message) == SendAll(recipients, message) + [Envelope(last, message)]
  {
    SendAllConcat(recipients, [last], message);
    assert SendAll([last], message) == [Envelope(last, message)];
  }
}
