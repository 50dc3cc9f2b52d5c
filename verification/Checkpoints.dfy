/** Tasks, brain events, JSON values, and the in-memory checkpoint store. */
module Checkpoints {
  import opened Base

  const TWO_TO_THE_63 := 0x8000_0000_0000_0000
  const CANONICAL_NAN := 0x7FF8_0000_0000_0000

  predicate IsNaN(bits: nat) {
    bits % TWO_TO_THE_63 > 0x7FF0_0000_0000_0000
  }

  /** The 64 bits of a double, read as a number. JSON text does not tell one NaN from another, so there is one. */
  type Double = bits: nat | bits < 2 * TWO_TO_THE_63 && (IsNaN(bits) ==> bits == CANONICAL_NAN)

  datatype Json =
    | JNull
    | JBool(flag: bool)
    | JInt(num: int)
    | JFloat(float: Double)
    | JStr(str: string)
    | JArr(items: seq<Json>)
    | JObj(fields: map<string, Json>)

  /** `turn` is whatever the brain put under `turn` in its state; the code never narrows it. */
  datatype Checkpoint = Checkpoint(sessionId: string, turn: Json, state: map<string, Json>)

  datatype Task = Task(prompt: string, sessionId: string)

  datatype BrainEvent =
    | MessageEvent(text: string)
    | DoneEvent(result: string, state: map<string, Json>)
    | OtherEvent

  class CheckpointStore {
    var saved: map<string, Checkpoint>

    constructor ()
      ensures saved == map[]
    {
      saved := map[];
    }

    method Save(c: Checkpoint)
      modifies this
      ensures saved == old(saved)[c.sessionId := c]
    {
      saved := saved[c.sessionId := c];
    }

    method Load(sessionId: string) returns (c: Option<Checkpoint>)
      ensures c == if sessionId in saved then Some(saved[sessionId]) else None
    {
      c := if sessionId in saved then Some(saved[sessionId]) else None;
    }

    /** A missing checkpoint is a no-op. */
    method Delete(sessionId: string)
      modifies this
      ensures saved == old(saved) - {sessionId}
    {
      saved := saved - {sessionId};
    }
  }
}
