/** The in-flight table with its cached byte count, updated in place. */
module MessagesInFlight {
  import opened Options
  import opened PullTypes
  import opened MapSums
  import O = PullOrdering

  function Sizes(flight: map<AckId, O.Flight>): (sizes: map<AckId, nat>)
    ensures sizes.Keys == flight.Keys
  {
    map id | id in flight :: flight[id].size
  }

  class MessagesInFlight {
    var messagesInFlight: map<AckId, O.Flight>
    var bytesInFlight: nat

    /** The cached byte count agrees with the table. */
    ghost predicate Valid()
      reads this
    {
      bytesInFlight == Sum(Sizes(messagesInFlight))
    }

    constructor ()
      ensures Valid() && messagesInFlight == map[]
    {
      messagesInFlight, bytesInFlight := map[], 0;
      assert Sizes(map[]) == map[];
    }

    method Remove(ackId: AckId) returns (orderingKey: Option<Option<string>>)
      requires Valid()
      modifies this
      ensures Valid() && messagesInFlight == old(messagesInFlight) - {ackId}
      ensures orderingKey.Some? <==> ackId in old(messagesInFlight)
      ensures orderingKey.Some? ==> orderingKey.value == old(messagesInFlight)[ackId].key
    {
      if ackId !in messagesInFlight {
        assert messagesInFlight - {ackId} == messagesInFlight;
        return None;
      }
      var removed := messagesInFlight[ackId];
      SumRemove(Sizes(messagesInFlight), ackId);
      assert Sizes(messagesInFlight - {ackId}) == Sizes(messagesInFlight) - {ackId};
      messagesInFlight := messagesInFlight - {ackId};
      bytesInFlight := bytesInFlight - removed.size;
      orderingKey := Some(removed.key);
    }

    /** An entry already present under the id is replaced, and its bytes are given back. */
    method Insert(message: Message)
      requires Valid()
      modifies this
      ensures Valid() && messagesInFlight == old(messagesInFlight)[message.id := O.FlightEntry(message)]
    {
      ghost var sizes := Sizes(messagesInFlight);
      SumPut(sizes, message.id, message.size);
      assert Sizes(messagesInFlight[message.id := O.FlightEntry(message)]) == sizes[message.id := message.size];
      if message.id in messagesInFlight {
        bytesInFlight := bytesInFlight - messagesInFlight[message.id].size;
      }
      messagesInFlight := messagesInFlight[message.id := O.FlightEntry(message)];
      bytesInFlight := bytesInFlight + message.size;
    }
  }
}
