/** `ListInterface` and its implementation `list`: PHR-typed add, get and update over a state
    list, with lookups keyed by `CreatePHRKey`. */
module PhrList {
  import opened Results
  import opened Json
  import opened Phr
  import opened Ledger

  /** The name every PHR state list is given. */
  const ListName := "org.phrnet.phrlist"

  datatype PHRList = PHRList(stateList: StateList)

  /** The list's decode function behaves exactly as `Deserialize`. */
  ghost predicate DecodesAsPHR(sl: StateList)
  {
    forall w, target :: sl.deserialize(w, target) == Deserialize(w, target)
  }

  /** `AddPHR`: the entity itself goes to the state list, and its error comes back unchanged. */
  function AddPHR(l: PHRList, ws: WorldState, p: PHR): (r: (Option<Error>, WorldState))
    ensures Logged(ws, r.1, AddCall(p))
    ensures r.0 == ws.writeFault
    ensures r.0.None? ==> r.1.records == ws.records[CreatePHRKey(p.issuer, p.phrNumber) := Serialize(p)]
    ensures r.0.Some? ==> r.1.records == ws.records
  {
    AddState(l.stateList, ws, p)
  }

  /** `GetPHR`: reads exactly the key `CreatePHRKey(issuer, phrNumber)`, decoding onto a fresh
      entity; any failure of the read comes back unchanged and no entity with it. */
  function GetPHR(l: PHRList, ws: WorldState, issuer: string, phrNumber: string): (r: (Result<PHR>, WorldState))
    ensures r.1 == ws.(calls := ws.calls + [GetCall(CreatePHRKey(issuer, phrNumber))])
    ensures ws.readFault.Some? ==> r.0 == Err(ws.readFault.value)
    ensures ws.readFault.None? && CreatePHRKey(issuer, phrNumber) !in ws.records ==>
              r.0 == Err(NotFound(CreatePHRKey(issuer, phrNumber)))
    ensures ws.readFault.None? && CreatePHRKey(issuer, phrNumber) in ws.records ==>
              r.0 == l.stateList.deserialize(ws.records[CreatePHRKey(issuer, phrNumber)], Empty)
  {
    GetState(l.stateList, ws, CreatePHRKey(issuer, phrNumber), Empty)
  }

  /** `UpdatePHR`: the entity itself goes to the state list, and its error comes back unchanged. */
  function UpdatePHR(l: PHRList, ws: WorldState, p: PHR): (r: (Option<Error>, WorldState))
    ensures Logged(ws, r.1, UpdateCall(p))
    ensures r.0 == ws.writeFault
    ensures r.0.None? ==> r.1.records == ws.records[CreatePHRKey(p.issuer, p.phrNumber) := Serialize(p)]
    ensures r.0.Some? ==> r.1.records == ws.records
  {
    UpdateState(l.stateList, ws, p)
  }

  /** `newList(ctx)`: a state list bound to the context, named for PHRs, decoding with
      `Deserialize`. */
  function NewList(ctx: nat): (l: PHRList)
    ensures l.stateList.ctx == ctx
    ensures l.stateList.name == ListName
    ensures DecodesAsPHR(l.stateList)
  {
    PHRList(StateList(ctx, ListName, (w: Wire, target: PHR) => Deserialize(w, target)))
  }

  /** A record written for `p` is read back as `p` by the lookup on its issuer and number. */
  lemma ReadBack(l: PHRList, ws: WorldState, p: PHR)
    requires DecodesAsPHR(l.stateList)
    requires ws.readFault.None?
    requires CreatePHRKey(p.issuer, p.phrNumber) in ws.records
    requires ws.records[CreatePHRKey(p.issuer, p.phrNumber)] == Serialize(p)
    ensures GetPHR(l, ws, p.issuer, p.phrNumber).0 == Ok(p)
  {
    RoundTrip(p, Empty);
  }

  /** What `AddPHR` stores, `GetPHR` in a later transaction finds: the key the list reads is
      the key the add wrote. */
  lemma GetAfterAdd(l: PHRList, ws: WorldState, p: PHR)
    requires DecodesAsPHR(l.stateList)
    requires ws.readFault.None? && ws.writeFault.None?
    ensures AddPHR(l, ws, p).0.None?
    ensures GetPHR(l, AddPHR(l, ws, p).1, p.issuer, p.phrNumber).0 == Ok(p)
  {
    ReadBack(l, AddPHR(l, ws, p).1, p);
  }

  /** What `UpdatePHR` stores replaces what was there, and `GetPHR` in a later transaction
      finds the new entity. */
  lemma GetAfterUpdate(l: PHRList, ws: WorldState, p: PHR)
    requires DecodesAsPHR(l.stateList)
    requires ws.readFault.None? && ws.writeFault.None?
    ensures UpdatePHR(l, ws, p).0.None?
    ensures GetPHR(l, UpdatePHR(l, ws, p).1, p.issuer, p.phrNumber).0 == Ok(p)
  {
    ReadBack(l, UpdatePHR(l, ws, p).1, p);
  }

  /** The key `GetPHR` looks up for an entity's issuer and number is the `key` member its
      encoding carries. */
  lemma LookupKeyIsEncodedKey(l: PHRList, ws: WorldState, p: PHR)
    ensures var k := Serialize(p).json.members[8];
      && k.name == "key"
      && GetPHR(l, ws, p.issuer, p.phrNumber).1.calls == ws.calls + [GetCall(k.value.s)]
  {
  }
}
