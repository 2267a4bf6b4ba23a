/** The entry points of the warehouse-ledger chaincode: `Init`, `Invoke` and
    `Query`, the handlers they route to (`write`, `read`,
    `enterHDWHLedgerDetails`) and the ingestion loop inside
    `enterHDWHLedgerDetails`.

    The JSON codec is not part of this model: decoding the payload and
    encoding a warehouse record are the parameters `decode` and `serialize`,
    about which nothing is assumed. */
module Chaincode {
  import opened Ledger
  import opened StateStore

  datatype Error =
    | WrongArgumentCount(expected: nat)  // the call had the wrong number of arguments
    | UnknownInvocation(name: string)    // no invoke handler; the message ends with `name`
    | UnknownQuery(name: string)         // no query handler; the message ends with `name`
    | StoreFailure                       // the error PutState returned, passed on as is
    | GetStateFailed(key: string)        // GetState failed; the JSON message names `key`

  /** What an entry point gives back: a payload (nil or bytes), an error, or
      a Go runtime panic (an index past the end of `args`). */
  datatype Outcome = Ok(payload: Option<string>) | Err(error: Error) | Panic

  /** The key `Init` stores its argument under. */
  const InitKey := "hello_world"

  /** `r` and the move from `before` to `after` are those of one `PutState(key, value)`:
      either it succeeded and only `key` changed, or the store error came back
      and nothing changed. */
  predicate Stored(r: Outcome, before: map<string, string>, after: map<string, string>,
                   key: string, value: string)
  {
    (r == Ok(None) && after == before[key := value]) ||
    (r == Err(StoreFailure) && after == before)
  }

  /** The promise of `Init`: exactly one argument, stored under `InitKey`. */
  predicate InitResult(args: seq<string>, r: Outcome, before: map<string, string>, after: map<string, string>)
  {
    if |args| != 1 then r == Err(WrongArgumentCount(1)) && after == before
    else Stored(r, before, after, InitKey, args[0])
  }

  /** The promise of `write`: exactly two arguments, `args[1]` stored under `args[0]`. */
  predicate WriteResult(args: seq<string>, r: Outcome, before: map<string, string>, after: map<string, string>)
  {
    if |args| != 2 then r == Err(WrongArgumentCount(2)) && after == before
    else Stored(r, before, after, args[0], args[1])
  }

  /** The promise of `read`: exactly one argument, and then the value under it
      (nil when absent) or a store error naming the key. */
  predicate ReadResult(args: seq<string>, r: Outcome, state: map<string, string>)
  {
    if |args| != 1 then r == Err(WrongArgumentCount(1))
    else r == Ok(Lookup(state, args[0])) || r == Err(GetStateFailed(args[0]))
  }

  /** Stores the single argument under the fixed key "hello_world". */
  method Init(stub: Stub, args: seq<string>) returns (r: Outcome)
    modifies stub
    ensures InitResult(args, r, old(stub.state), stub.state)
  {
    if |args| != 1 {
      return Err(WrongArgumentCount(1));
    }
    var failed := stub.PutState(InitKey, args[0]);
    if failed {
      return Err(StoreFailure);
    }
    return Ok(None);
  }

  /** Routes an invocation by name; an unknown name leaves the state alone.
      `enterHDWHLedgerDetails` never reaches the store: it is handed the
      name "write" and only writes when handed "writ". */
  method Invoke(stub: Stub, name: string, args: seq<string>,
                decode: string -> seq<Shipment>, serialize: Warehouse -> string)
    returns (r: Outcome)
    modifies stub
    ensures name == "init" ==> InitResult(args, r, old(stub.state), stub.state)
    ensures name == "enterHDWHLedgerDetails" ==>
      stub.state == old(stub.state) &&
      r == if |args| < 2 then Panic
           else Err(UnknownInvocation(Transformed(args[0], decode(args[1]), serialize)[1]))
    ensures name == "write" ==> WriteResult(args, r, old(stub.state), stub.state)
    ensures name != "init" && name != "enterHDWHLedgerDetails" && name != "write" ==>
      r == Err(UnknownInvocation(name)) && stub.state == old(stub.state)
  {
    if name == "init" {
      r := Init(stub, args);
    } else if name == "enterHDWHLedgerDetails" {
      r := EnterHDWHLedgerDetails(stub, "write", args, decode, serialize);
    } else if name == "write" {
      r := Write(stub, args);
    } else {
      r := Err(UnknownInvocation(name));
    }
  }

  /** Decodes `args[1]` into shipments, runs the ingestion loop for key
      `args[0]`, and writes the resulting two-slot buffer only when handed the
      name "writ"; under any other name it fails with an error that carries
      the buffer's second slot. */
  method EnterHDWHLedgerDetails(stub: Stub, name: string, args: seq<string>,
                                decode: string -> seq<Shipment>, serialize: Warehouse -> string)
    returns (r: Outcome)
    modifies stub
    ensures |args| < 2 ==> r == Panic && stub.state == old(stub.state)
    ensures |args| >= 2 && name == "writ" ==>
      WriteResult(Transformed(args[0], decode(args[1]), serialize), r, old(stub.state), stub.state)
    ensures |args| >= 2 && name != "writ" ==>
      r == Err(UnknownInvocation(Transformed(args[0], decode(args[1]), serialize)[1])) &&
      stub.state == old(stub.state)
  {
    if |args| < 2 {
      return Panic;
    }
    var key, value := args[0], args[1];
    var languages := decode(value);
    var str := TransformLedgers(key, languages, serialize);
    if name == "writ" {
      r := Write(stub, str);
    } else {
      r := Err(UnknownInvocation(str[1]));
    }
  }

  /** The buffer after the innermost body has run for item `i` and defect `j`. */
  ghost function Written(key: string, shipment: Shipment, i: nat, j: nat, serialize: Warehouse -> string): seq<string>
    requires i < |shipment.items| && j < |shipment.defects|
  {
    [key, serialize(Combine(shipment, shipment.items[i], shipment.defects[j]))]
  }

  /** The triple loop over shipments, items and defects. Every pass through
      the innermost body builds a record and overwrites both slots of the
      buffer, so the buffer ends as `Transformed` says: the key and the last
      record built, or `["", ""]` when the body never ran. */
  method TransformLedgers(key: string, languages: seq<Shipment>, serialize: Warehouse -> string)
    returns (str: seq<string>)
    ensures str == Transformed(key, languages, serialize)
  {
    var buf := new string[2](_ => "");
    for l := 0 to |languages|
      invariant buf[..] == Transformed(key, languages[..l], serialize)
    {
      var shipment := languages[l];
      ghost var before := buf[..];
      for item := 0 to |shipment.items|
        invariant buf[..] == if item > 0 && |shipment.defects| > 0
          then Written(key, shipment, item - 1, |shipment.defects| - 1, serialize)
          else before
      {
        ghost var outer := buf[..];
        for defect := 0 to |shipment.defects|
          invariant buf[..] == if defect > 0
            then Written(key, shipment, item, defect - 1, serialize)
            else outer
        {
          var warehouse := Combine(shipment, shipment.items[item], shipment.defects[defect]);
          var s := serialize(warehouse);
          buf[0] := key;
          buf[1] := s;
          assert buf[..] == [key, s];
        }
      }
      TransformedStep(key, languages, l, serialize);
    }
    assert languages[..|languages|] == languages;
    str := buf[..];
  }

  /** Routes a query by name: only "read" is known. */
  method Query(stub: Stub, name: string, args: seq<string>) returns (r: Outcome)
    ensures name == "read" ==> ReadResult(args, r, stub.state)
    ensures name != "read" ==> r == Err(UnknownQuery(name))
  {
    if name == "read" {
      r := Read(stub, args);
    } else {
      r := Err(UnknownQuery(name));
    }
  }

  /** Stores `args[1]` under `args[0]`; the argument count is checked first. */
  method Write(stub: Stub, args: seq<string>) returns (r: Outcome)
    modifies stub
    ensures WriteResult(args, r, old(stub.state), stub.state)
  {
    if |args| != 2 {
      return Err(WrongArgumentCount(2));
    }
    var key, value := args[0], args[1];
    var failed := stub.PutState(key, value);
    if failed {
      return Err(StoreFailure);
    }
    return Ok(None);
  }

  /** Looks `args[0]` up; the argument count is checked first. */
  method Read(stub: Stub, args: seq<string>) returns (r: Outcome)
    ensures ReadResult(args, r, stub.state)
  {
    if |args| != 1 {
      return Err(WrongArgumentCount(1));
    }
    var key := args[0];
    var valAsBytes, failed := stub.GetState(key);
    if failed {
      return Err(GetStateFailed(key));
    }
    return Ok(valAsBytes);
  }

  /** `write([k, v])` followed by `read([k])`: when neither call hits a store
      error, the read gives back `v`. */
  method WriteThenRead(stub: Stub, key: string, value: string) returns (w: Outcome, r: Outcome)
    modifies stub
    ensures w == Ok(None) ==> stub.state == old(stub.state)[key := value]
    ensures w == Ok(None) ==> r == Ok(Some(value)) || r == Err(GetStateFailed(key))
  {
    w := Invoke(stub, "write", [key, value], _ => [], _ => "");
    r := Query(stub, "read", [key]);
  }

  /** `Init([v])` followed by `read(["hello_world"])`: when neither call hits
      a store error, the read gives back `v`. */
  method InitThenRead(stub: Stub, value: string) returns (i: Outcome, r: Outcome)
    modifies stub
    ensures i == Ok(None) ==> stub.state == old(stub.state)[InitKey := value]
    ensures i == Ok(None) ==> r == Ok(Some(value)) || r == Err(GetStateFailed(InitKey))
  {
    i := Init(stub, [value]);
    r := Query(stub, "read", [InitKey]);
  }
}
