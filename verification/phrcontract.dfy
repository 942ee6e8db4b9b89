/** The PHR contract: `Issue`, `Buy` and `Expire`. Each obtains the list from the context,
    checks ownership and lifecycle state against the entity it built or fetched, and then makes
    exactly one write, or fails with a specific error and writes nothing. */
module PhrContract {
  import opened Results
  import opened Json
  import opened Phr
  import opened Ledger
  import opened PhrList
  import opened PhrContext

  /** What an operation returns (the entity or the error), with the context and world state it
      leaves behind. */
  datatype Outcome = Outcome(result: Result<PHR>, tc: Context, ws: WorldState)

  function NotOwned(issuer: string, phrNumber: string, owner: string): string
  {
    "PHR " + issuer + ":" + phrNumber + " is not owned by " + owner
  }

  function NotTrading(issuer: string, phrNumber: string, s: State): string
  {
    "PHR " + issuer + ":" + phrNumber + " is not trading. Current state = " + StateString(s)
  }

  function AlreadyExpired(issuer: string, phrNumber: string): string
  {
    "PHR " + issuer + ":" + phrNumber + " is already expired"
  }

  /** The fetch `Buy` and `Expire` start with: the context's list asked for the PHR. */
  function Fetch(tc: Context, ws: WorldState, issuer: string, phrNumber: string): (Result<PHR>, WorldState)
  {
    GetPHR(GetPHRList(tc).0, ws, issuer, phrNumber)
  }

  /** `Issue`: a new PHR owned by its issuer, in state ISSUED, handed to `AddPHR`; the same
      entity is returned, or the list's error with no entity. */
  function Issue(tc: Context, ws: WorldState, issuer: string, phrNumber: string,
                 issueDateTime: string, maturityDateTime: string, faceValue: Int64): (r: Outcome)
    ensures r.tc == GetPHRList(tc).1
    ensures |r.ws.calls| == |ws.calls| + 1 && r.ws.calls[..|ws.calls|] == ws.calls
    ensures var sent := r.ws.calls[|ws.calls|];
      && sent.AddCall?
      && sent.entity.phrNumber == phrNumber
      && sent.entity.issuer == issuer
      && sent.entity.issueDateTime == issueDateTime
      && sent.entity.faceValue == faceValue
      && sent.entity.maturityDateTime == maturityDateTime
      && sent.entity.owner == issuer
      && sent.entity.state == ISSUED
    ensures r.result.Ok? <==> ws.writeFault.None?
    ensures r.result.Ok? ==> r.result.value == r.ws.calls[|ws.calls|].entity
    ensures r.result.Ok? ==>
              r.ws.records == ws.records[CreatePHRKey(issuer, phrNumber) := Serialize(r.result.value)]
    ensures r.result.Err? ==> r.result.error == ws.writeFault.value && r.ws.records == ws.records
  {
    var p := SetIssued(PHR(phrNumber, issuer, issueDateTime, faceValue, maturityDateTime, issuer, 0));
    var (l, tc1) := GetPHRList(tc);
    var (err, ws1) := AddPHR(l, ws, p);
    if err.Some? then Outcome(Err(err.value), tc1, ws1) else Outcome(Ok(p), tc1, ws1)
  }

  /** `Buy`: the fetched PHR must be owned by `currentOwner` (checked first) and be ISSUED or
      TRADING; it then becomes TRADING, passes to `newOwner` and is written back once. `price`
      and `purchaseDateTime` take no part. */
  function Buy(tc: Context, ws: WorldState, issuer: string, phrNumber: string, currentOwner: string,
               newOwner: string, price: Int64, purchaseDateTime: string): (r: Outcome)
    ensures r.tc == GetPHRList(tc).1
    ensures var (f, ws1) := Fetch(tc, ws, issuer, phrNumber);
      f.Err? ==> r.result == f && r.ws == ws1
    ensures var (f, ws1) := Fetch(tc, ws, issuer, phrNumber);
      f.Ok? && f.value.owner != currentOwner ==>
        r.result == Err(Message(NotOwned(issuer, phrNumber, currentOwner))) && r.ws == ws1
    ensures var (f, ws1) := Fetch(tc, ws, issuer, phrNumber);
      f.Ok? && f.value.owner == currentOwner && f.value.state != ISSUED && f.value.state != TRADING ==>
        r.result == Err(Message(NotTrading(issuer, phrNumber, f.value.state))) && r.ws == ws1
    ensures var (f, ws1) := Fetch(tc, ws, issuer, phrNumber);
      f.Ok? && f.value.owner == currentOwner && (f.value.state == ISSUED || f.value.state == TRADING) ==>
        var sold := f.value.(owner := newOwner, state := TRADING);
        && Logged(ws1, r.ws, UpdateCall(sold))
        && r.result == (if ws.writeFault.None? then Ok(sold) else Err(ws.writeFault.value))
        && r.ws.records == (if ws.writeFault.None?
                            then ws.records[CreatePHRKey(sold.issuer, sold.phrNumber) := Serialize(sold)]
                            else ws.records)
  {
    var (l, tc1) := GetPHRList(tc);
    var (fetched, ws1) := GetPHR(l, ws, issuer, phrNumber);
    if fetched.Err? then Outcome(Err(fetched.error), tc1, ws1)
    else
      var p := fetched.value;
      if p.owner != currentOwner then Outcome(Err(Message(NotOwned(issuer, phrNumber, currentOwner))), tc1, ws1)
      else
        var p1 := if IsIssued(p) then SetTrading(p) else p;
        if !IsTrading(p1) then Outcome(Err(Message(NotTrading(issuer, phrNumber, p1.state))), tc1, ws1)
        else
          var sold := p1.(owner := newOwner);
          var (l2, tc2) := GetPHRList(tc1);
          var (err, ws2) := UpdatePHR(l2, ws1, sold);
          if err.Some? then Outcome(Err(err.value), tc2, ws2) else Outcome(Ok(sold), tc2, ws2)
  }

  /** `Expire`: the fetched PHR must be owned by `expiringOwner` (checked first) and not already
      EXPIRED; it then goes back to its issuer as EXPIRED and is written back once.
      `expireDateTime` takes no part. */
  function Expire(tc: Context, ws: WorldState, issuer: string, phrNumber: string, expiringOwner: string,
                  expireDateTime: string): (r: Outcome)
    ensures r.tc == GetPHRList(tc).1
    ensures var (f, ws1) := Fetch(tc, ws, issuer, phrNumber);
      f.Err? ==> r.result == f && r.ws == ws1
    ensures var (f, ws1) := Fetch(tc, ws, issuer, phrNumber);
      f.Ok? && f.value.owner != expiringOwner ==>
        r.result == Err(Message(NotOwned(issuer, phrNumber, expiringOwner))) && r.ws == ws1
    ensures var (f, ws1) := Fetch(tc, ws, issuer, phrNumber);
      f.Ok? && f.value.owner == expiringOwner && f.value.state == EXPIRED ==>
        r.result == Err(Message(AlreadyExpired(issuer, phrNumber))) && r.ws == ws1
    ensures var (f, ws1) := Fetch(tc, ws, issuer, phrNumber);
      f.Ok? && f.value.owner == expiringOwner && f.value.state != EXPIRED ==>
        var retired := f.value.(owner := f.value.issuer, state := EXPIRED);
        && Logged(ws1, r.ws, UpdateCall(retired))
        && r.result == (if ws.writeFault.None? then Ok(retired) else Err(ws.writeFault.value))
        && r.ws.records == (if ws.writeFault.None?
                            then ws.records[CreatePHRKey(retired.issuer, retired.phrNumber) := Serialize(retired)]
                            else ws.records)
  {
    var (l, tc1) := GetPHRList(tc);
    var (fetched, ws1) := GetPHR(l, ws, issuer, phrNumber);
    if fetched.Err? then Outcome(Err(fetched.error), tc1, ws1)
    else
      var p := fetched.value;
      if p.owner != expiringOwner then Outcome(Err(Message(NotOwned(issuer, phrNumber, expiringOwner))), tc1, ws1)
      else if IsExpired(p) then Outcome(Err(Message(AlreadyExpired(issuer, phrNumber))), tc1, ws1)
      else
        var retired := SetExpired(p.(owner := p.issuer));
        var (l2, tc2) := GetPHRList(tc1);
        var (err, ws2) := UpdatePHR(l2, ws1, retired);
        if err.Some? then Outcome(Err(err.value), tc2, ws2) else Outcome(Ok(retired), tc2, ws2)
  }
}
