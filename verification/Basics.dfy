/** Return codes, capacity limits and small datatypes shared by all modules. */
module Basics {

  datatype Option<+T> = None | Some(value: T)

  /** The two capacity configurations the library is built in. */
  datatype Config = Full | Slim

  /** LMQTT_LINE_MAX: size of the line buffer, terminator included. */
  function LineMax(cfg: Config): nat {
    if cfg.Full? then 512 else 320
  }

  /** LMQTT_DOWN_MAX: size of one downlink slot. */
  function DownMax(cfg: Config): nat {
    if cfg.Full? then 512 else 320
  }

  const TOPIC_MAX := 256
  const PUB_INLINE_MAX := 1024

  const LMQTT_OK := 0
  const ERR_PARAM := -1
  const ERR_TIMEOUT := -2
  const ERR_AT := -3
  const ERR_RESULT := -4
  const ERR_OVERFLOW := -7
  const ERR_IO := -8

  /** Why the last command failed (lmqtt_cmd_stage_t). */
  datatype Stage = StageNone | AckTmo | UrcTmo | StaleSlot
}
