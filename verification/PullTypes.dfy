/** Values that travel through the streaming pull manager. */
module PullTypes {
  import opened Options

  /** The internal id of a held message: a counter that starts at 1 and is never reused. */
  type AckId = nat

  /** The id Pub/Sub gave the delivery. Nothing is assumed about its uniqueness. */
  type ServerId = string

  /** A message inside the manager, as far as scheduling can see it. */
  datatype Message = Message(id: AckId, key: Option<string>, size: nat)

  datatype AckOrNack<+T> = Ack(id: T) | Nack(id: T)

  /** One entry of a streaming pull response. The body may be missing. */
  datatype Received = Received(serverId: ServerId, body: Option<Body>)

  datatype Body = Body(orderingKey: string, size: nat)

  /** The requests the manager issues in the background. */
  datatype Request =
    | Acknowledge(ids: seq<ServerId>)
    | ModifyAckDeadline(ids: seq<ServerId>, secs: nat)

  /** An empty ordering key on the wire means that the message is unordered. */
  function OrderingKey(raw: string): (key: Option<string>)
    ensures key.None? <==> raw == ""
    ensures key.Some? ==> key.value == raw
  {
    if raw == "" then None else Some(raw)
  }

  /** The most ack ids that go into one request. */
  const ACK_IDS_MAX_BATCH_SIZE: nat := 2500
}
