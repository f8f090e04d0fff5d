/** The vocabulary of the core ABI (include/retropark/retropark_abi.h) that the models share:
    integer widths, the input record, and a core as a triple of functions. */
module Abi {
  type byte = x: int | 0 <= x < 0x100
  type uint16 = x: int | 0 <= x < 0x1_0000
  type uint32 = x: int | 0 <= x < 0x1_0000_0000
  type uint64 = x: int | 0 <= x < 0x1_0000_0000_0000_0000
  type int16 = x: int | -0x8000 <= x < 0x8000

  const UINT64_MAX: uint64 := 0xFFFF_FFFF_FFFF_FFFF

  type Blob = seq<byte>

  datatype Option<+T> = None | Some(value: T)

  /** The `rp_result` codes that the modelled code distinguishes. */
  datatype Code = Ok | Device | Timeout | NotFound | BadArg | Internal | AbiMismatch | Unsupported

  /** `rp_input_state`: key flags, signed axes, one button mask. The record has no padding bytes, so
      comparing it byte by byte is comparing its fields. */
  datatype InputState = Pad(keys: seq<byte>, axes: seq<int16>, buttons: uint16)
  {
    /** The array lengths of the record; only the wire format depends on them. */
    predicate WellFormed() { |keys| == 256 && |axes| == 8 }
  }

  /** The value-initialised input record. */
  function Neutral(): (r: InputState)
    ensures r.WellFormed()
  {
    Pad(seq(256, _ => 0), seq(8, _ => 0), 0)
  }

  /** A driven core: one emulated frame reads the input of both ports. `save` yields nothing when
      `serialize` fails, and an empty blob when `serialize_size` is 0. `load` yields nothing when
      `unserialize` rejects the blob. */
  datatype Core<!S> = Core(step: (S, InputState, InputState) -> S, save: S -> Option<Blob>, load: Blob -> Option<S>)

  /** Save and load are exact: every state has a non-empty blob and that blob restores it. */
  ghost predicate Exact<S(!new)>(c: Core<S>) {
    forall s: S :: c.save(s).Some? && c.save(s).value != [] && c.load(c.save(s).value) == Some(s)
  }

  /** The blob of a state, empty when saving fails. */
  function Saved<S>(c: Core<S>, s: S): Blob {
    match c.save(s) case Some(b) => b case None => []
  }

  /** `Runtime::load_state` refuses an empty buffer before it asks the core. */
  function Load<S>(c: Core<S>, b: Blob): Option<S> {
    if b == [] then None else c.load(b)
  }

  /** One frame as the peer that drives `port` calls it: its own input on `port`, the other
      player's input on the other port. */
  function StepAt<S>(c: Core<S>, port: Side, s: S, own: InputState, other: InputState): S {
    if port == 0 then c.step(s, own, other) else c.step(s, other, own)
  }

  /** One of the two players' ports. */
  type Side = x: nat | x <= 1

  function Lookup<V>(m: map<nat, V>, k: nat, default: V): V {
    if k in m then m[k] else default
  }

  /** The entries of `m` from `floor` up. */
  function PruneBelow<V>(m: map<nat, V>, floor: nat): map<nat, V> {
    map k | k in m && k >= floor :: m[k]
  }
}
