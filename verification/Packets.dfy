/** The control packets the modelled code reads and writes. */
module Packets {
  import opened TopicLevels

  /** The PUBLISH packet fields the broker looks at. */
  datatype PublishPacket = PublishPacket(
    topicName: Bytes, payload: Bytes, qos: Byte, retain: bool, messageId: nat)

  /** What WritePacket is given. */
  datatype Packet =
    | Publish(packet: PublishPacket)
    | Puback(id: nat)
    | Pubrec(id: nat)
    | Pubrel(id: nat)
    | Pubcomp(id: nat)
    | Suback(id: nat, codes: seq<Byte>)
    | Unsuback(id: nat)
}
