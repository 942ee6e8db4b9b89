/** The ledger library's state list, seen from outside: a store of encoded records keyed by
    composite key, which persist from one transaction to the next. The library itself is not part of
    this model; what is modelled is only what the PHR code relies on: `AddState` and
    `UpdateState` write the entity's encoding under the key built from its split key, and
    `GetState` reads the record at a key and decodes it with the list's own decode function.
    Failures of the underlying store are injected through the two fault fields, and every call
    is logged so that the number and order of writes can be stated. */
module Ledger {
  import opened Results
  import opened Json
  import opened Phr
  import Keys

  /** A call made to the state list, in the order made. */
  datatype Call = AddCall(entity: PHR) | GetCall(key: string) | UpdateCall(entity: PHR)

  /** World state as the PHR code sees it: the stored records, which persist from one
      transaction to the next; the error every read or write would fail with (if the store is
      failing); and the log of calls made so far, across transactions. */
  datatype WorldState = WorldState(
    records: map<string, Wire>,
    readFault: Option<Error>,
    writeFault: Option<Error>,
    calls: seq<Call>)

  /** A state list: bound to a context (by its identity), named, and carrying the function it
      decodes stored records with. */
  datatype StateList = StateList(ctx: nat, name: string, deserialize: (Wire, PHR) -> Result<PHR>)

  predicate IsWrite(c: Call)
  {
    c.AddCall? || c.UpdateCall?
  }

  /** `ws'` is `ws` with `c` logged and nothing else about the store changed but its records. */
  ghost predicate Logged(ws: WorldState, ws': WorldState, c: Call)
  {
    && ws'.calls == ws.calls + [c]
    && ws'.readFault == ws.readFault
    && ws'.writeFault == ws.writeFault
  }

  function Put(ws: WorldState, c: Call, p: PHR): (Option<Error>, WorldState)
  {
    var logged := ws.(calls := ws.calls + [c]);
    if ws.writeFault.Some? then (ws.writeFault, logged)
    else (None, logged.(records := ws.records[Keys.MakeKey(GetSplitKey(p)) := Serialize(p)]))
  }

  function AddState(sl: StateList, ws: WorldState, p: PHR): (Option<Error>, WorldState)
  {
    Put(ws, AddCall(p), p)
  }

  function UpdateState(sl: StateList, ws: WorldState, p: PHR): (Option<Error>, WorldState)
  {
    Put(ws, UpdateCall(p), p)
  }

  function GetState(sl: StateList, ws: WorldState, key: string, target: PHR): (Result<PHR>, WorldState)
  {
    var logged := ws.(calls := ws.calls + [GetCall(key)]);
    if ws.readFault.Some? then (Err(ws.readFault.value), logged)
    else if key !in ws.records then (Err(NotFound(key)), logged)
    else (sl.deserialize(ws.records[key], target), logged)
  }
}
