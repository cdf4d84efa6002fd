/** The storage adapter contract of engine/Storage.ts: checkpoint lists kept per
    transaction id. The semantics are those of the in-memory adapter used by the
    tests, which the file- and key-value-backed adapters share: `load` of an id
    never saved (or cleared) yields null, `save` replaces the whole list. */
module Storage {
  import opened Outcomes

  datatype Status = Completed | Pending

  /** One checkpoint entry. `result` is `None` where the engine stored `undefined`. */
  datatype StepContext<R> = StepContext(name: string, result: Option<R>, status: Status)

  /** A keyed store of checkpoint lists. */
  class MemoryStorage<R> {
    var data: map<string, seq<StepContext<R>>>

    constructor ()
      ensures data == map[]
    {
      data := map[];
    }

    /** Stores `state` as the whole checkpoint list of `transactionId`. */
    method Save(transactionId: string, state: seq<StepContext<R>>)
      modifies this
      ensures transactionId in data && data[transactionId] == state
      ensures forall other :: other != transactionId ==>
                (other in data <==> other in old(data)) &&
                (other in data ==> data[other] == old(data)[other])
      ensures data == old(data)[transactionId := state]
    {
      data := data[transactionId := state];
    }

    /** The list last saved for `transactionId`, or `None` (null) when there is none. */
    method Load(transactionId: string) returns (state: Option<seq<StepContext<R>>>)
      ensures state.None? <==> transactionId !in data
      ensures state.Some? ==> state.value == data[transactionId]
    {
      if transactionId in data {
        state := Some(data[transactionId]);
      } else {
        state := None;
      }
    }

    /** Forgets the list of `transactionId`; clearing an absent id is not an error. */
    method Clear(transactionId: string)
      modifies this
      ensures transactionId !in data
      ensures forall other :: other != transactionId ==>
                (other in data <==> other in old(data)) &&
                (other in data ==> data[other] == old(data)[other])
      ensures data == old(data) - {transactionId}
    {
      data := data - {transactionId};
    }
  }
}
