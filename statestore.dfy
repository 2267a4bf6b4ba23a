/** The chaincode's view of the peer's world state: a flat map from keys to
    values behind `PutState` and `GetState`. The peer may refuse either call;
    which calls fail is not something the chaincode can see, so each one
    fails or succeeds nondeterministically. */
module StateStore {

  datatype Option<T> = None | Some(value: T)

  /** The value stored under `key`, or `None` (Go's nil slice) when there is none. */
  function Lookup(state: map<string, string>, key: string): Option<string>
  {
    if key in state then Some(state[key]) else None
  }

  /** The stub handed to every chaincode entry point. */
  class Stub {
    var state: map<string, string>

    constructor (initial: map<string, string>)
      ensures state == initial
    {
      state := initial;
    }

    /** Create-or-overwrite `key`; on failure the state is untouched. */
    method PutState(key: string, value: string) returns (failed: bool)
      modifies this
      ensures state == if failed then old(state) else old(state)[key := value]
    {
      failed :| true;
      if !failed {
        state := state[key := value];
      }
    }

    /** Look `key` up; a missing key is not a failure but a nil value. */
    method GetState(key: string) returns (value: Option<string>, failed: bool)
      ensures failed ==> value == None
      ensures !failed ==> value == Lookup(state, key)
      // Follows from the two clauses above and `Lookup`; stated for callers.
      ensures value.Some? ==> key in state && value.value == state[key]
    {
      failed :| true;
      value := if failed then None else Lookup(state, key);
    }
  }
}
