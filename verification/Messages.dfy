/** Clear-text messages and their extension with routing fields (ExtClrMsg.cpp). */
module Messages {

  const UNSET_UUID: int := -1
  const UNSET_RING_TTL: int := -1

  /** `MsgOther` is a number that was cast to the enumeration although it names no message type. */
  datatype MsgType = MsgUndef | MsgClient | MsgLinks | MsgBootstrapping | MsgOther(code: int)

  /** What a client sees of a message. */
  datatype ClrMsg = ClrMsg(text: string, from: string, to: string, time: int, nonce: int, ampIndex: int)

  /** What one server hands to the next; `body` is never changed on the way. */
  datatype ExtClrMsg = ExtClrMsg(
    body: ClrMsg,
    uuid: int,
    ringTtl: int,
    ringIdx: int,
    msgType: MsgType,
    visited: seq<string>,
    sent: seq<string>)
  {
    predicate IsRingTtlSet() { ringTtl != UNSET_RING_TTL }
  }

  /** The uuid made from the first eight bytes of a message hash (read as a signed 64-bit number). */
  function MakeUuid(digestPrefix: int): (uuid: int)
    ensures uuid != UNSET_UUID
    ensures digestPrefix != UNSET_UUID ==> uuid == digestPrefix
  {
    if digestPrefix == UNSET_UUID then 1 else digestPrefix
  }

  /** The message object that the routing code passes by reference and updates in place. */
  class MessageObject {
    const body: ClrMsg
    const uuid: int
    const msgType: MsgType
    var ringTtl: int
    var ringIdx: int
    var committeesVisited: seq<string>
    var committeesSent: seq<string>

    function Value(): ExtClrMsg
      reads this
    {
      ExtClrMsg(body, uuid, ringTtl, ringIdx, msgType, committeesVisited, committeesSent)
    }

    constructor (m: ExtClrMsg)
      ensures Value() == m
    {
      body, uuid, msgType := m.body, m.uuid, m.msgType;
      ringTtl, ringIdx := m.ringTtl, m.ringIdx;
      committeesVisited, committeesSent := m.visited, m.sent;
    }

    /** A message object of its own: changing the copy leaves the original alone. */
    method Copy() returns (c: MessageObject)
      ensures fresh(c) && c.Value() == Value()
    {
      c := new MessageObject(Value());
    }

    /** Never turns a ring message into one whose time-to-live is unset. */
    method DecRingTtl()
      modifies this`ringTtl
      ensures Value() == old(Value()).(ringTtl := if old(ringTtl) > 0 then old(ringTtl) - 1 else old(ringTtl))
      ensures Value().IsRingTtlSet() == old(Value().IsRingTtlSet())
    {
      if ringTtl > 0 {
        ringTtl := ringTtl - 1;
      }
    }
  }
}
