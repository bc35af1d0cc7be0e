/** The table of transactions in flight or waiting for the other server. */
module KeyValueStore {
  import opened WriteAheadLog

  datatype TxnData = TxnData(originalFiles: seq<string>, sizes: seq<nat>, offsets: seq<nat>, state: State)

  type Kv = map<string, TxnData>

  const NO_DATA: TxnData := TxnData([], [], [], START)

  function Added(kv: Kv, id: string, txn: TxnData): Kv {
    if id in kv then kv else kv[id := txn]
  }

  /** `operator[]` inserts an empty entry for an unknown id before its state is set. */
  function WithState(kv: Kv, id: string, state: State): Kv {
    kv[id := (if id in kv then kv[id] else NO_DATA).(state := state)]
  }

  class KVStore {
    var store: Kv

    constructor ()
      ensures store == map[]
    {
      store := map[];
    }

    method AddToKVStore(id: string, originalFiles: seq<string>, sizes: seq<nat>, offsets: seq<nat>)
      modifies this
      ensures store == Added(old(store), id, TxnData(originalFiles, sizes, offsets, START))
      ensures store == if id in old(store) then old(store) else old(store)[id := TxnData(originalFiles, sizes, offsets, START)]
    {
      if id !in store {
        store := store[id := TxnData(originalFiles, sizes, offsets, START)];
      }
    }

    /** -1 in the source is `None` here: the state of an unknown id. */
    method GetStateFromKVStore(id: string) returns (known: bool, state: State)
      ensures known <==> id in store
      ensures known ==> state == store[id].state
    {
      if id !in store {
        return false, START;
      }
      return true, store[id].state;
    }

    method UpdateStateOnKVStore(id: string, state: State)
      modifies this
      ensures store == WithState(old(store), id, state)
      ensures id in store && store[id].state == state && store.Keys == old(store.Keys) + {id}
      ensures id in old(store) ==> store[id] == old(store)[id].(state := state)
      ensures id !in old(store) ==> store[id] == TxnData([], [], [], state)
      ensures forall other :: other in old(store) && other != id ==> store[other] == old(store)[other]
    {
      if id !in store {
        store := store[id := NO_DATA];
      }
      store := store[id := store[id].(state := state)];
    }

    method DeleteFromKVStore(id: string)
      modifies this
      ensures store == old(store) - {id}
    {
      if id in store {
        store := store - {id};
      }
    }

    method GetTransactionDataFromKVStore(id: string) returns (txn: TxnData)
      modifies this
      ensures txn == if id in old(store) then old(store)[id] else NO_DATA
      ensures store == Added(old(store), id, NO_DATA)
      ensures store == if id in old(store) then old(store) else old(store)[id := TxnData([], [], [], START)]
    {
      if id !in store {
        store := store[id := NO_DATA];
      }
      txn := store[id];
    }
  }
}
