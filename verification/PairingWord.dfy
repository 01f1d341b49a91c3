/**
 * The pairing word: command kind and msgID packed into the one 32-bit word that the command task
 * publishes and the receive task snapshots.
 */
module PairingWord {

  type Kind = k: nat | k < 0x100
  type MsgId = m: nat | m < 0x1_0000
  type Word = w: nat | w < 0x1_0000_0000

  const KIND_NONE: Kind := 0
  const KIND_OPEN: Kind := 1
  const KIND_CLOSE: Kind := 2
  const KIND_CONN: Kind := 3
  const KIND_DISC: Kind := 4
  const KIND_SUBUNSUB: Kind := 5
  const KIND_PUB: Kind := 6
  const KIND_RAW: Kind := 7

  /** LMQTT_CMD_PEND */
  function Pack(kind: Kind, msgid: MsgId): Word {
    kind * 0x1_0000 + msgid
  }

  /** LMQTT_PEND_KIND */
  function KindOf(w: Word): Kind {
    w / 0x1_0000 % 0x100
  }

  /** LMQTT_PEND_MSGID */
  function MsgIdOf(w: Word): MsgId {
    w % 0x1_0000
  }

  /** What begin publishes while no command is in flight, and what abort writes back. */
  const IDLE: Word := 0

  lemma PackUnpack(kind: Kind, msgid: MsgId)
    ensures KindOf(Pack(kind, msgid)) == kind
    ensures MsgIdOf(Pack(kind, msgid)) == msgid
  {
  }

  /** Distinct (kind, msgid) pairs never share a pairing word. */
  lemma PackInjective(k1: Kind, m1: MsgId, k2: Kind, m2: MsgId)
    requires Pack(k1, m1) == Pack(k2, m2)
    ensures k1 == k2 && m1 == m2
  {
    PackUnpack(k1, m1);
    PackUnpack(k2, m2);
  }

  /** The macros as written: shifts and masks on 32-bit words. */
  function PackBits(kind: bv32, msgid: bv32): bv32 {
    ((kind & 0xFF) << 16) | (msgid & 0xFFFF)
  }

  function KindBits(w: bv32): bv32 {
    (w >> 16) & 0xFF
  }

  function MsgIdBits(w: bv32): bv32 {
    w & 0xFFFF
  }

  /** On 32-bit words the macros are the multiplication, division and remainder used above. */
  lemma BitsAgree(kind: bv32, msgid: bv32, w: bv32)
    requires kind < 0x100 && msgid < 0x1_0000
    ensures PackBits(kind, msgid) == kind * 0x1_0000 + msgid
    ensures KindBits(w) == w / 0x1_0000 % 0x100
    ensures MsgIdBits(w) == w % 0x1_0000
  {
  }
}
