/** Properties of the contract across operations: what a successful call persists, which
    states stored records can be in, that EXPIRED is final, and the scenarios of
    `phrcontract_test.go`. */
module Lifecycle {
  import opened Results
  import opened Json
  import opened Phr
  import opened Ledger
  import opened PhrList
  import opened PhrContext
  import opened PhrContract

  /** The number of writes (adds and updates) in a call log. */
  function WriteCount(calls: seq<Call>): nat
    decreases |calls|
  {
    if |calls| == 0 then 0
    else WriteCount(calls[..|calls| - 1]) + (if IsWrite(calls[|calls| - 1]) then 1 else 0)
  }

  lemma WriteCountSnoc(calls: seq<Call>, c: Call)
    ensures WriteCount(calls + [c]) == WriteCount(calls) + (if IsWrite(c) then 1 else 0)
  {
    assert (calls + [c])[..|calls|] == calls;
  }

  /** What one contract call persisted: on success exactly one write was made, it was the last
      call, it carried the returned entity, and the store holds that entity under its key and
      nothing else new; on failure the store's records are as before and at most one write was
      attempted. */
  ghost predicate PersistsOnce(ws: WorldState, o: Outcome)
  {
    && ws.calls <= o.ws.calls
    && (o.result.Ok? ==>
          var v := o.result.value;
          && WriteCount(o.ws.calls) == WriteCount(ws.calls) + 1
          && IsWrite(o.ws.calls[|o.ws.calls| - 1])
          && o.ws.calls[|o.ws.calls| - 1].entity == v
          && o.ws.records == ws.records[CreatePHRKey(v.issuer, v.phrNumber) := Serialize(v)])
    && (o.result.Err? ==>
          && o.ws.records == ws.records
          && WriteCount(o.ws.calls) <= WriteCount(ws.calls) + 1)
  }

  lemma IssuePersistsOnce(tc: Context, ws: WorldState, issuer: string, phrNumber: string,
                          issueDateTime: string, maturityDateTime: string, faceValue: Int64)
    ensures PersistsOnce(ws, Issue(tc, ws, issuer, phrNumber, issueDateTime, maturityDateTime, faceValue))
  {
    var o := Issue(tc, ws, issuer, phrNumber, issueDateTime, maturityDateTime, faceValue);
    assert o.ws.calls == ws.calls + [o.ws.calls[|ws.calls|]];
    WriteCountSnoc(ws.calls, o.ws.calls[|ws.calls|]);
  }

  /** A `Buy` that fails a check (fetch, ownership or state) makes no write at all. */
  lemma BuyPersistsOnce(tc: Context, ws: WorldState, issuer: string, phrNumber: string,
                        currentOwner: string, newOwner: string, price: Int64, purchaseDateTime: string)
    ensures PersistsOnce(ws, Buy(tc, ws, issuer, phrNumber, currentOwner, newOwner, price, purchaseDateTime))
    ensures var f := Fetch(tc, ws, issuer, phrNumber).0;
      (f.Err? || f.value.owner != currentOwner || (f.value.state != ISSUED && f.value.state != TRADING)) ==>
        WriteCount(Buy(tc, ws, issuer, phrNumber, currentOwner, newOwner, price, purchaseDateTime).ws.calls)
          == WriteCount(ws.calls)
  {
    var o := Buy(tc, ws, issuer, phrNumber, currentOwner, newOwner, price, purchaseDateTime);
    var (f, ws1) := Fetch(tc, ws, issuer, phrNumber);
    WriteCountSnoc(ws.calls, GetCall(CreatePHRKey(issuer, phrNumber)));
    if f.Ok? && f.value.owner == currentOwner && (f.value.state == ISSUED || f.value.state == TRADING) {
      WriteCountSnoc(ws1.calls, o.ws.calls[|o.ws.calls| - 1]);
    }
  }

  /** An `Expire` that fails a check (fetch, ownership or already expired) makes no write. */
  lemma ExpirePersistsOnce(tc: Context, ws: WorldState, issuer: string, phrNumber: string,
                           expiringOwner: string, expireDateTime: string)
    ensures PersistsOnce(ws, Expire(tc, ws, issuer, phrNumber, expiringOwner, expireDateTime))
    ensures var f := Fetch(tc, ws, issuer, phrNumber).0;
      (f.Err? || f.value.owner != expiringOwner || f.value.state == EXPIRED) ==>
        WriteCount(Expire(tc, ws, issuer, phrNumber, expiringOwner, expireDateTime).ws.calls)
          == WriteCount(ws.calls)
  {
    var o := Expire(tc, ws, issuer, phrNumber, expiringOwner, expireDateTime);
    var (f, ws1) := Fetch(tc, ws, issuer, phrNumber);
    WriteCountSnoc(ws.calls, GetCall(CreatePHRKey(issuer, phrNumber)));
    if f.Ok? && f.value.owner == expiringOwner && f.value.state != EXPIRED {
      WriteCountSnoc(ws1.calls, o.ws.calls[|o.ws.calls| - 1]);
    }
  }

  // ---------------------------------------------------------------------------------------
  // Stored states stay named
  // ---------------------------------------------------------------------------------------

  predicate Named(s: State)
  {
    ISSUED <= s <= EXPIRED
  }

  /** Every stored record that decodes at all decodes to a PHR in a named state. */
  ghost predicate KnownStates(ws: WorldState)
  {
    forall k :: k in ws.records && Deserialize(ws.records[k], Empty).Ok? ==>
      Named(Deserialize(ws.records[k], Empty).value.state)
  }

  lemma KnownStatesAfterWrite(ws: WorldState, ws': WorldState, v: PHR)
    requires KnownStates(ws)
    requires Named(v.state)
    requires ws'.records == ws.records[CreatePHRKey(v.issuer, v.phrNumber) := Serialize(v)]
    ensures KnownStates(ws')
  {
    RoundTrip(v, Empty);
  }

  /** No contract operation ever stores a PHR whose state is not one of the three named ones. */
  lemma IssueKeepsKnownStates(tc: Context, ws: WorldState, issuer: string, phrNumber: string,
                              issueDateTime: string, maturityDateTime: string, faceValue: Int64)
    requires KnownStates(ws)
    ensures KnownStates(Issue(tc, ws, issuer, phrNumber, issueDateTime, maturityDateTime, faceValue).ws)
  {
    var o := Issue(tc, ws, issuer, phrNumber, issueDateTime, maturityDateTime, faceValue);
    if o.result.Ok? {
      KnownStatesAfterWrite(ws, o.ws, o.result.value);
    }
  }

  lemma BuyKeepsKnownStates(tc: Context, ws: WorldState, issuer: string, phrNumber: string,
                            currentOwner: string, newOwner: string, price: Int64, purchaseDateTime: string)
    requires KnownStates(ws)
    ensures KnownStates(Buy(tc, ws, issuer, phrNumber, currentOwner, newOwner, price, purchaseDateTime).ws)
  {
    var o := Buy(tc, ws, issuer, phrNumber, currentOwner, newOwner, price, purchaseDateTime);
    if o.result.Ok? {
      KnownStatesAfterWrite(ws, o.ws, o.result.value);
    }
  }

  lemma ExpireKeepsKnownStates(tc: Context, ws: WorldState, issuer: string, phrNumber: string,
                               expiringOwner: string, expireDateTime: string)
    requires KnownStates(ws)
    ensures KnownStates(Expire(tc, ws, issuer, phrNumber, expiringOwner, expireDateTime).ws)
  {
    var o := Expire(tc, ws, issuer, phrNumber, expiringOwner, expireDateTime);
    if o.result.Ok? {
      KnownStatesAfterWrite(ws, o.ws, o.result.value);
    }
  }

  // ---------------------------------------------------------------------------------------
  // The lifecycle
  // ---------------------------------------------------------------------------------------

  /** The record stored for a PHR at its key: present, decoding (as `Deserialize` does) to `p`. */
  ghost predicate StoredAs(ws: WorldState, issuer: string, phrNumber: string, p: PHR)
  {
    && CreatePHRKey(issuer, phrNumber) in ws.records
    && Deserialize(ws.records[CreatePHRKey(issuer, phrNumber)], Empty) == Ok(p)
  }

  /** Once expired, a PHR can be neither bought nor expired again, by anyone, and the store is
      left as it was. */
  lemma ExpiredIsFinal(tc: Context, ws: WorldState, issuer: string, phrNumber: string, p: PHR,
                       caller: string, newOwner: string, price: Int64, when: string)
    requires Sound(tc) && ws.readFault.None?
    requires StoredAs(ws, issuer, phrNumber, p) && IsExpired(p)
    ensures var o := Buy(tc, ws, issuer, phrNumber, caller, newOwner, price, when);
      o.result.Err? && o.ws.records == ws.records
    ensures var o := Expire(tc, ws, issuer, phrNumber, caller, when);
      o.result.Err? && o.ws.records == ws.records
  {
    GetPHRListSound(tc);
  }

  /** Every successful transition is one the state machine allows: Buy from ISSUED or TRADING
      into TRADING, Expire from anything but EXPIRED into EXPIRED with the issuer as owner. */
  lemma TransitionsAllowed(tc: Context, ws: WorldState, issuer: string, phrNumber: string, p: PHR,
                           caller: string, newOwner: string, price: Int64, when: string)
    requires Sound(tc) && ws.readFault.None?
    requires StoredAs(ws, issuer, phrNumber, p)
    ensures var o := Buy(tc, ws, issuer, phrNumber, caller, newOwner, price, when);
      o.result.Ok? ==>
        && (p.state == ISSUED || p.state == TRADING) && p.owner == caller
        && o.result.value == p.(owner := newOwner, state := TRADING)
    ensures var o := Expire(tc, ws, issuer, phrNumber, caller, when);
      o.result.Ok? ==>
        && p.state != EXPIRED && p.owner == caller
        && o.result.value == p.(owner := p.issuer, state := EXPIRED)
  {
    GetPHRListSound(tc);
  }

  /** The full lifecycle on an empty ledger, one transaction per step, each with a context of
      its own: issue, sell to a buyer, expire by the buyer. Each step succeeds, the ledger ends
      holding the PHR expired and back with its issuer, three writes were made, and a further
      purchase is refused as not trading. */
  lemma IssueBuyExpire(ids: seq<nat>, issuer: string, phrNumber: string, issued: string, matures: string,
                       faceValue: Int64, buyer: string, price: Int64, when: string)
    requires |ids| == 4
    ensures var ws0 := WorldState(map[], None, None, []);
      var o1 := Issue(Context(ids[0], None), ws0, issuer, phrNumber, issued, matures, faceValue);
      var o2 := Buy(Context(ids[1], None), o1.ws, issuer, phrNumber, issuer, buyer, price, when);
      var o3 := Expire(Context(ids[2], None), o2.ws, issuer, phrNumber, buyer, when);
      var o4 := Buy(Context(ids[3], None), o3.ws, issuer, phrNumber, issuer, buyer, price, when);
      && o1.result == Ok(PHR(phrNumber, issuer, issued, faceValue, matures, issuer, ISSUED))
      && o2.result == Ok(PHR(phrNumber, issuer, issued, faceValue, matures, buyer, TRADING))
      && o3.result == Ok(PHR(phrNumber, issuer, issued, faceValue, matures, issuer, EXPIRED))
      && StoredAs(o3.ws, issuer, phrNumber, o3.result.value)
      && WriteCount(o3.ws.calls) == 3
      && o4.result == Err(Message(NotTrading(issuer, phrNumber, EXPIRED)))
  {
    var ws0 := WorldState(map[], None, None, []);
    var o1 := Issue(Context(ids[0], None), ws0, issuer, phrNumber, issued, matures, faceValue);
    IssuePersistsOnce(Context(ids[0], None), ws0, issuer, phrNumber, issued, matures, faceValue);
    RoundTrip(o1.result.value, Empty);
    assert StoredAs(o1.ws, issuer, phrNumber, o1.result.value);
    var o2 := Buy(Context(ids[1], None), o1.ws, issuer, phrNumber, issuer, buyer, price, when);
    BuyPersistsOnce(Context(ids[1], None), o1.ws, issuer, phrNumber, issuer, buyer, price, when);
    RoundTrip(o2.result.value, Empty);
    assert o2.result.Ok? && StoredAs(o2.ws, issuer, phrNumber, o2.result.value);
    var o3 := Expire(Context(ids[2], None), o2.ws, issuer, phrNumber, buyer, when);
    ExpirePersistsOnce(Context(ids[2], None), o2.ws, issuer, phrNumber, buyer, when);
    RoundTrip(o3.result.value, Empty);
    assert o3.result.Ok? && StoredAs(o3.ws, issuer, phrNumber, o3.result.value);
  }


  /** Decode does not check the stored `key` or the entity's own identity against the key it
      was read from. A record at one key that decodes to a PHR of another issuer and number is
      bought and written back under that other key; the record that was read stays as it was. */
  lemma ForeignRecordWrittenElsewhere(tc: Context, ws: WorldState, issuer: string, phrNumber: string,
                                      p: PHR, newOwner: string, price: Int64, when: string)
    requires Sound(tc) && ws.readFault.None? && ws.writeFault.None?
    requires StoredAs(ws, issuer, phrNumber, p)
    requires p.state == ISSUED || p.state == TRADING
    requires CreatePHRKey(p.issuer, p.phrNumber) != CreatePHRKey(issuer, phrNumber)
    ensures var o := Buy(tc, ws, issuer, phrNumber, p.owner, newOwner, price, when);
      && o.result.Ok?
      && o.ws.records[CreatePHRKey(issuer, phrNumber)] == ws.records[CreatePHRKey(issuer, phrNumber)]
      && StoredAs(o.ws, p.issuer, p.phrNumber, o.result.value)
  {
    GetPHRListSound(tc);
    var o := Buy(tc, ws, issuer, phrNumber, p.owner, newOwner, price, when);
    RoundTrip(o.result.value, Empty);
  }

  // ---------------------------------------------------------------------------------------
  // The scenarios of `phrcontract_test.go`, on a ledger holding one PHR
  // ---------------------------------------------------------------------------------------

  const Held := PHR("somephr", "someissuer", "sometime", 1000, "somelatertime", "someowner", TRADING)

  function LedgerHolding(p: PHR): WorldState
  {
    WorldState(map[CreatePHRKey(p.issuer, p.phrNumber) := Serialize(p)], None, None, [])
  }

  /** Issuing returns the configured PHR, the one handed to the list. */
  lemma IssueSample(id: nat)
    ensures Issue(Context(id, None), WorldState(map[], None, None, []),
                  "someissuer", "somephr", "someissuedate", "somematuritydate", 1000).result
         == Ok(PHR("somephr", "someissuer", "someissuedate", 1000, "somematuritydate", "someissuer", ISSUED))
  {
  }

  /** The wrong current owner is refused with the ownership message, nothing written. */
  lemma BuyNotOwnedSample(id: nat)
    ensures var o := Buy(Context(id, None), LedgerHolding(Held), "someissuer", "somephr",
                         "someotherowner", "someowner", 100, "2019-12-10:10:00");
      && o.result == Err(Message("PHR someissuer:somephr is not owned by someotherowner"))
      && o.ws.records == LedgerHolding(Held).records
  {
    RoundTrip(Held, Empty);
    NotOwnedSampleText();
  }

  /** The ownership message of that scenario, assembled piece by piece. */
  lemma NotOwnedSampleText()
    ensures NotOwned("someissuer", "somephr", "someotherowner")
         == "PHR someissuer:somephr is not owned by someotherowner"
  {
    assert "PHR " + "someissuer" == "PHR someissuer";
    assert "PHR someissuer" + ":" == "PHR someissuer:";
    assert "PHR someissuer:" + "somephr" == "PHR someissuer:somephr";
    assert "PHR someissuer:somephr" + " is not owned by " == "PHR someissuer:somephr is not owned by ";
    assert "PHR someissuer:somephr is not owned by " + "someotherowner"
        == "PHR someissuer:somephr is not owned by someotherowner";
  }


  /** A PHR that is neither ISSUED nor TRADING is refused by the right owner with its state
      named: "EXPIRED" for an expired one, "UNKNOWN" for one in no named state. */
  lemma BuyNotTradingSamples(id: nat)
    ensures var o := Buy(Context(id, None), LedgerHolding(Held.(state := EXPIRED)), "someissuer", "somephr",
                         "someowner", "someotherowner", 100, "2019-12-10:10:00");
      o.result == Err(Message(NotTrading("someissuer", "somephr", EXPIRED)))
    ensures var o := Buy(Context(id, None), LedgerHolding(Held.(state := 0)), "someissuer", "somephr",
                         "someowner", "someotherowner", 100, "2019-12-10:10:00");
      o.result == Err(Message(NotTrading("someissuer", "somephr", 0)))
    ensures StateString(EXPIRED) == "EXPIRED" && StateString(0) == "UNKNOWN"
  {
    RoundTrip(Held.(state := EXPIRED), Empty);
    RoundTrip(Held.(state := 0), Empty);
  }

  /** An issued PHR bought by its owner becomes TRADING with the new owner, and that is what is
      written. */
  lemma BuyIssuedSample(id: nat)
    ensures var o := Buy(Context(id, None), LedgerHolding(Held.(state := ISSUED)), "someissuer", "somephr",
                         "someowner", "someotherowner", 100, "2019-12-10:10:00");
      && o.result == Ok(Held.(owner := "someotherowner"))
      && o.ws.calls[|o.ws.calls| - 1] == UpdateCall(o.result.value)
  {
    RoundTrip(Held.(state := ISSUED), Empty);
  }

  /** A failing update is reported as is, with no PHR. */
  lemma BuyUpdateFailsSample(id: nat)
    ensures var o := Buy(Context(id, None), LedgerHolding(Held).(writeFault := Some(Message("UpdatePHR error"))),
                         "someissuer", "somephr", "someowner", "someotherowner", 100, "2019-12-10:10:00");
      o.result == Err(Message("UpdatePHR error"))
  {
    RoundTrip(Held, Empty);
  }

  /** Expire checks ownership before expiry, then refuses an already expired PHR. */
  lemma ExpireSamples(id: nat)
    ensures Expire(Context(id, None), LedgerHolding(Held.(state := EXPIRED)), "someissuer", "somephr",
                   "someotherowner", "2021-12-10:10:00").result
         == Err(Message(NotOwned("someissuer", "somephr", "someotherowner")))
    ensures Expire(Context(id, None), LedgerHolding(Held.(state := EXPIRED)), "someissuer", "somephr",
                   "someowner", "2021-12-10:10:00").result
         == Err(Message(AlreadyExpired("someissuer", "somephr")))
    ensures Expire(Context(id, None), LedgerHolding(Held), "someissuer", "somephr",
                   "someowner", "2021-12-10:10:00").result
         == Ok(Held.(owner := "someissuer", state := EXPIRED))
  {
    RoundTrip(Held.(state := EXPIRED), Empty);
    RoundTrip(Held, Empty);
  }
}
