/** A client's session (broker/persistence/sessions/session.go): the topics it lists. */
module Session {
  import opened TopicLevels

  class ClientSession {
    var topics: map<Bytes, Byte>
    var initted: bool

    constructor ()
      ensures !initted && topics == map[]
    {
      topics, initted := map[], false;
    }

    method Init() returns (ok: bool)
      modifies this
      ensures ok == !old(initted) && initted
      ensures topics == if ok then map[] else old(topics)
    {
      if initted {
        return false;
      }
      topics, initted := map[], true;
      return true;
    }

    method AddTopic(topic: Bytes, q: Byte) returns (ok: bool)
      modifies this`topics
      ensures ok == initted
      ensures topics == if ok then old(topics)[topic := q] else old(topics)
    {
      if !initted {
        return false;
      }
      topics := topics[topic := q];
      return true;
    }

    method RemoveTopic(topic: Bytes) returns (ok: bool)
      modifies this`topics
      ensures ok == initted
      ensures topics == if ok then old(topics) - {topic} else old(topics)
    {
      if !initted {
        return false;
      }
      topics := topics - {topic};
      return true;
    }
  }
}
