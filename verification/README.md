# PHR certificate lifecycle — a Dafny model

The PHR trading chaincode keeps certificates ("PHRs") on a ledger. Each PHR has:

- a number, an issuer, issue and maturity dates, a face value and an owner;
- a private lifecycle state: ISSUED, TRADING or EXPIRED.

The contract offers three transactions:

- `Issue` creates a PHR owned by its issuer, in state ISSUED.
- `Buy` moves an ISSUED or TRADING PHR to a new owner and leaves it TRADING.
- `Expire` returns any non-expired PHR to its issuer as EXPIRED.

A PHR is stored as a JSON record under the key `issuer:phrNumber`. The record carries:

- the business fields;
- the state, as `currentState`;
- a class tag, `org.phrnet.phrlist`;
- the key itself.

The contract reaches the store through a PHR list built lazily by the transaction context.

Modules, one file each:

- `Results` (`results.dfy`): `Option`, `Result` and the error values; Go's `error` is `Error`.
- `Json` (`json.dfy`): the structured wire form of a record, and the texts of decode errors.
- `Keys` (`keys.dfy`): composite keys. They are parts joined by `:`, with `Split` as the inverse.
- `Phr` (`phr.dfy`): the entity, the state names, the setters and predicates, the key, and the encode/decode pair.
- `Ledger` (`ledger.dfy`): the state list as the PHR code sees it.
  - It is a map from keys to records.
  - It has an injected read fault and an injected write fault.
  - It keeps a log of every add, get and update call.
- `PhrList` (`phrlist.dfy`): `AddPHR`, `GetPHR`, `UpdatePHR` and `newList`.
- `PhrContext` (`phrcontext.dfy`): the transaction context with its cached list.
- `PhrContract` (`phrcontract.dfy`): `Issue`, `Buy` and `Expire`. Each returns its result together with the context and world state it leaves.
- `Lifecycle` (`lifecycle.dfy`): properties across operations and the contract-test scenarios.

Decoding follows Go's `encoding/json` onto the target entity, member by member:

- unknown names are ignored;
- `null` is skipped;
- a later duplicate overrides an earlier one;
- the first type mismatch becomes the error, and decoding continues;
- `class` and `key` must be strings, but their values are discarded;
- `currentState` is copied with no range check;
- a number outside the Go type's range is an error;
- a top-level `null` leaves the target as it is with state 0.

Two further points:

- Key derivation is not injective in general. `CreatePHRKey("a:b", "c")` equals `CreatePHRKey("a", "b:c")`. It is injective when issuer and number contain no `:` (`Phr.KeyCollision`, `Phr.KeyDeterminesIdentity`).
- Decode does not compare the stored `key` with the key a record was read from. A record whose decoded issuer and number differ from its lookup key is bought and written back under the other key (`Lifecycle.ForeignRecordWrittenElsewhere`).

## Model

| member | source | states |
|---|---|---|
| Phr.StateString | phr/organization/institute/contract-go/phr/phr.go:26-34 | "ISSUED", "TRADING" and "EXPIRED" come out exactly for states 1, 2 and 3 (each an if-and-only-if). "UNKNOWN" comes out exactly for every other value, 0 and 4 included. |
| Phr.CreatePHRKey | phr/organization/institute/contract-go/phr/phr.go:36-39 | The key is the issuer, the separator `:` and the PHR number, in that order. |
| Phr.SetIssued | phr/organization/institute/contract-go/phr/phr.go:90-93 | Afterwards `IsIssued` holds and `IsTrading` and `IsExpired` do not. No business field changes. |
| Phr.SetTrading | phr/organization/institute/contract-go/phr/phr.go:95-98 | Afterwards only `IsTrading` holds. No business field changes. |
| Phr.SetExpired | phr/organization/institute/contract-go/phr/phr.go:100-103 | Afterwards only `IsExpired` holds. No business field changes. |
| Phr.IsIssued | phr/organization/institute/contract-go/phr/phr.go:105-108 | Holds exactly when the state's name is "ISSUED". |
| Phr.IsTrading | phr/organization/institute/contract-go/phr/phr.go:110-113 | Holds exactly when the state's name is "TRADING". |
| Phr.IsExpired | phr/organization/institute/contract-go/phr/phr.go:115-118 | Holds exactly when the state's name is "EXPIRED". |
| Phr.GetSplitKey | phr/organization/institute/contract-go/phr/phr.go:120-123 | Exactly two parts: the issuer first, then the number. Joined as a key, they give `CreatePHRKey` of the entity. |
| Phr.Serialize | phr/organization/institute/contract-go/phr/phr.go:78-83 | The encoding is a valid object with nine members in a fixed order: `phrNumber`, `issuer`, `issueDateTime`, `faceValue`, `maturityDateTime` and `owner`, each holding that field of the entity (the face value as a number, the rest as strings), then `currentState`, `class` and `key`. `currentState` is the state's number, `class` is "org.phrnet.phrlist", and `key` is the entity's `CreatePHRKey`. |
| Phr.Deserialize | phr/organization/institute/contract-go/phr/phr.go:130-139 | Every failure is a message that starts with "Error deserializing phr. ". Bytes that do not parse fail with the prefix followed by the parser's complaint. A top-level null succeeds, leaving the target with state 0. Any other non-object fails with "json: cannot unmarshal <kind> into Go value of type phr.jsonPHR" after the prefix. An object whose members all fit their types decodes successfully. |
| Phr.DecodeMember | phr/organization/institute/contract-go/phr/phr.go:63-76 | One member of a record. A member that fits (null, an unknown name, or a value of its field's Go type) leaves the reported error as it was. One that does not fit changes nothing but that error: it becomes the member's complaint unless an earlier one is already recorded. Null and unknown names change nothing. `class` and `key` never change the entity or its state. |
| Phr.DecodeMembers | phr/organization/institute/contract-go/phr/phr.go:63-71 | The members in document order. Once a mismatch is recorded no later member replaces it as the reported error, and a record whose members all fit records none. |
| Phr.StringStep | phr/organization/institute/contract-go/phr/phr.go:63-71 | A string member for one of the five string fields sets that field of the entity and nothing else. |
| Phr.FaceValueStep | phr/organization/institute/contract-go/phr/phr.go:63-71 | An in-range `faceValue` number sets the face value and nothing else. |
| Phr.StateStep | phr/organization/institute/contract-go/phr/phr.go:63-73 | An in-range `currentState` number sets the wrapper's state and nothing else. |
| Phr.BusinessDecoded | phr/organization/institute/contract-go/phr/phr.go:63-83 | The six business members of an encoding put every business field of the entity onto any target, leaving the target's state and the reported error alone. |
| Phr.TrailerDecoded | phr/organization/institute/contract-go/phr/phr.go:63-83 | The `currentState`, `class` and `key` members of an encoding set the wrapper's state to the entity's and change nothing else. |
| Phr.DecodedReported | phr/organization/institute/contract-go/phr/phr.go:63-76 | When the members leave no error, `Deserialize` succeeds with the target they built and the state they set. |
| Phr.ErrorReported | phr/organization/institute/contract-go/phr/phr.go:130-139 | When the members leave an error recorded, `Deserialize` fails with the prefix followed by that error's text. |
| Phr.RoundTrip | phr/organization/institute/contract-go/phr/phr.go:63-83 | Decoding the encoding of any PHR, onto any target, gives back that PHR: all six business fields and the state. |
| Phr.DecodeIgnoresInformational | phr/organization/institute/contract-go/phr/phr.go:63-76 | Two member lists that differ only in the string values of `class` and `key` decode to the same result. The proof is by induction on the list. |
| Phr.DeserializeIgnoresClassAndKey | phr/organization/institute/contract-go/phr/phr.go:63-76 | Whole records that differ only in the string values of `class` and `key` deserialize identically, success or error. |
| Phr.DecodeMembersAppend | phr/organization/institute/contract-go/phr/phr.go:63-71 | Decoding a concatenated member list is decoding the first part, then the second onto its result. |
| Phr.MistypedMemberFails | phr/organization/institute/contract-go/phr/phr.go:130-139 | A member of any known name whose value does not fit its Go type fails the decode, whatever follows, when no earlier member failed. The Go types are "string" for the five string fields, `class` and `key`; "int" for `faceValue`; and "phr.State" for `currentState`. The error is the prefix plus "json: cannot unmarshal <what> into Go struct field jsonPHR.<name> of type <type>". <what> is the value's kind, or "number <digits>" for a number outside the type's range. |
| Phr.MistypedMemberRecorded | phr/organization/institute/contract-go/phr/phr.go:63-71 | From a clean decoding, a member that does not fit is the error reported after the rest of the record. |
| Phr.DeserializeOkIff | phr/organization/institute/contract-go/phr/phr.go:63-76 | An object decodes successfully if and only if every member fits: it is null, has an unknown name, or holds a value of its field's type within range. |
| Phr.StateCopiedUnchecked | phr/organization/institute/contract-go/phr/phr.go:73 | Any `State` value survives a round trip, including one outside the named three. A state below ISSUED (0) or above EXPIRED is named "UNKNOWN". |
| Phr.KeyDeterminesIdentity | phr/organization/institute/contract-go/phr/phr.go:36-39 | Equal keys mean equal issuer and number when neither part contains the separator. |
| Phr.KeyCollision | phr/organization/institute/contract-go/phr/phr.go:36-39 | Without that condition keys collide: ("a:b", "c") and ("a", "b:c") give the same key. |
| Phr.SerializeSample | phr/organization/hospital/contract-go/phr/phr_test.go:88-101 | The sample TRADING PHR encodes to the nine members in order, with state 2, class "org.phrnet.phrlist" and key "someissuer:somephr". |
| Phr.DeserializeSample | phr/organization/hospital/contract-go/phr/phr_test.go:103-119 | A record with class "org.phrnet.phr" still decodes to the expected TRADING PHR. |
| Phr.DeserializeBadFaceValue | phr/organization/hospital/contract-go/phr/phr_test.go:121-124 | `faceValue` "NaN" fails with "Error deserializing phr. json: cannot unmarshal string into Go struct field jsonPHR.faceValue of type int". |
| Phr.MismatchText | phr/organization/hospital/contract-go/phr/phr_test.go:124 | The type-mismatch message for a string in `faceValue` is that exact text. |
| Keys.SplitPlain | phr/organization/institute/contract-go/phr/phr.go:36-39 | A separator-free part splits into itself. |
| Keys.SplitAtFirst | phr/organization/institute/contract-go/phr/phr.go:36-39 | Splitting `a:b` with `a` separator-free yields `a` followed by the split of `b`. |
| Keys.SplitMakeKey | phr/organization/institute/contract-go/phr/phr.go:36-39 | Splitting a key built from separator-free parts recovers exactly those parts. |
| Keys.MakeKeyInjective | phr/organization/institute/contract-go/phr/phr.go:36-39 | Keys built from separator-free parts are equal only when the parts are. |
| PhrList.AddPHR | phr/organization/hospital/contract-go/phr/phrlist.go:23-25 | Exactly one add call is logged, carrying the entity itself. The error is the store's, unchanged. On success the record at `CreatePHRKey` is the entity's encoding; on failure the records are untouched. |
| PhrList.GetPHR | phr/organization/hospital/contract-go/phr/phrlist.go:27-37 | One get call is logged, for exactly `CreatePHRKey(issuer, phrNumber)`, and nothing else changes. A read fault is returned unchanged. A missing key gives not-found. A present record goes to the list's decode function with a fresh entity as target. |
| PhrList.UpdatePHR | phr/organization/hospital/contract-go/phr/phrlist.go:39-41 | Exactly one update call is logged, carrying the entity itself. The error is the store's, unchanged. On success the entity's encoding replaces the record at its key. |
| PhrList.NewList | phr/organization/hospital/contract-go/phr/phrlist.go:43-56 | The list is bound to the given context and named "org.phrnet.phrlist". Its decode function agrees with `Deserialize` on every input. |
| PhrList.ReadBack | phr/organization/hospital/contract-go/phr/phrlist.go:27-37 | A record holding `p`'s encoding at `p`'s key is read back by `GetPHR` as `p`. |
| PhrList.GetAfterAdd | phr/organization/hospital/contract-go/phr/phrlist.go:23-37 | With a healthy store, `GetPHR` on an entity's issuer and number, in a transaction after the one that ran `AddPHR`, returns that entity. |
| PhrList.GetAfterUpdate | phr/organization/hospital/contract-go/phr/phrlist.go:27-41 | With a healthy store, `GetPHR` in a transaction after the one that ran `UpdatePHR` returns the updated entity. |
| PhrList.LookupKeyIsEncodedKey | phr/organization/hospital/contract-go/phr/phrlist.go:30 | The key `GetPHR` asks for is the string in the `key` member of the entity's encoding. |
| PhrContext.GetPHRList | phr/organization/hospital/contract-go/phr/phrcontext.go:27-34 | Afterwards the context holds the returned list. A list already set is returned with the context unchanged. Otherwise the list is `newList` of this context, named "org.phrnet.phrlist". |
| PhrContext.GetPHRListSound | phr/organization/hospital/contract-go/phr/phrcontext.go:27-34 | If a cached list decodes as `Deserialize`, then the list returned does, and so does the list cached afterwards. |
| PhrContext.GetPHRListIdempotent | phr/organization/hospital/contract-go/phr/phrcontext.go:27-34 | After any number k ≥ 1 of calls, the context is what the first call left. A further call returns the first call's list. |
| PhrContract.Issue | phr/organization/institute/contract-go/phr/phrcontract.go:24-36 | Exactly one add call is made. It carries a PHR with the given number, dates and face value, owned by the issuer and ISSUED. The result succeeds exactly when the store accepts the write. The returned PHR is the one sent. On failure the store's error comes back unchanged and nothing is stored. |
| PhrContract.Buy | phr/organization/institute/contract-go/phr/phrcontract.go:38-67 | A fetch error comes back unchanged. Otherwise the checks run in order: a wrong current owner gives "PHR i:n is not owned by o"; a state other than ISSUED or TRADING gives "... is not trading. Current state = <name>". On each of these, only the fetch is logged. Otherwise the PHR becomes TRADING with the new owner, and exactly one update of that entity is logged. Success or the write error follows the store. |
| PhrContract.Expire | phr/organization/institute/contract-go/phr/phrcontract.go:69-95 | A fetch error comes back unchanged. A wrong owner gives "not owned" (checked before expiry); an EXPIRED PHR gives "PHR i:n is already expired"; each logs only the fetch. Otherwise the PHR returns to its issuer as EXPIRED, and exactly one update of that entity is logged. |
| Lifecycle.WriteCountSnoc | phr/organization/institute/contract-go/phr/phrcontract.go:29-35 | Logging a call raises the write count by one for an add or update and by zero for a get. |
| Lifecycle.IssuePersistsOnce | phr/organization/institute/contract-go/phr/phrcontract.go:24-36 | A successful `Issue` makes exactly one write, the last call, carrying the returned PHR. The store changes only at that PHR's key. A failed `Issue` leaves the records as they were. |
| Lifecycle.BuyPersistsOnce | phr/organization/institute/contract-go/phr/phrcontract.go:38-67 | `Buy` makes one write on success, under the same terms as `Issue`. A failure leaves the records unchanged. When the fetch, ownership or state check fails, no write is made at all. |
| Lifecycle.ExpirePersistsOnce | phr/organization/institute/contract-go/phr/phrcontract.go:69-95 | `Expire` makes one write on success. A failure leaves the records unchanged. When the fetch, ownership or expiry check fails, no write is made. |
| Lifecycle.KnownStatesAfterWrite | phr/organization/institute/contract-go/phr/phr.go:78-83 | Writing the encoding of a PHR in a named state keeps every decodable stored record in a named state. |
| Lifecycle.IssueKeepsKnownStates | phr/organization/institute/contract-go/phr/phrcontract.go:24-36 | If every decodable record is in ISSUED, TRADING or EXPIRED before `Issue`, the same holds after it. |
| Lifecycle.BuyKeepsKnownStates | phr/organization/institute/contract-go/phr/phrcontract.go:38-67 | The same for `Buy`. |
| Lifecycle.ExpireKeepsKnownStates | phr/organization/institute/contract-go/phr/phrcontract.go:69-95 | The same for `Expire`. |
| Lifecycle.ExpiredIsFinal | phr/organization/institute/contract-go/phr/phrcontract.go:50-56 | A stored EXPIRED PHR can be neither bought nor expired by any caller, and the records stay unchanged. |
| Lifecycle.TransitionsAllowed | phr/organization/institute/contract-go/phr/phrcontract.go:38-95 | A successful `Buy` started from ISSUED or TRADING with the caller as owner, and yields the same PHR with the new owner, TRADING. A successful `Expire` started from a non-EXPIRED state owned by the caller, and yields the PHR with its issuer as owner, EXPIRED. |
| Lifecycle.IssueBuyExpire | phr/organization/institute/contract-go/phr/phrcontract.go:24-95 | On an empty, healthy ledger, issue, buy and expire each succeed with the expected PHR, each run as its own transaction with a fresh context. The final record reads back as the expired PHR. Three writes were made. A further purchase fails as not trading. |
| Lifecycle.ForeignRecordWrittenElsewhere | phr/organization/institute/contract-go/phr/phr.go:63-76 | A record at one key that decodes to a PHR with another issuer and number is bought successfully. It is written under its own key, and the record that was read stays as it was. |
| Lifecycle.IssueSample | phr/organization/hospital/contract-go/phr/phrcontract_test.go:74-78 | Issuing with the test's arguments returns the PHR the test expects, owned by "someissuer", state 1. |
| Lifecycle.BuyNotOwnedSample | phr/organization/hospital/contract-go/phr/phrcontract_test.go:111-113 | A wrong owner fails with "PHR someissuer:somephr is not owned by someotherowner", and the records stay unchanged. |
| Lifecycle.NotOwnedSampleText | phr/organization/hospital/contract-go/phr/phrcontract_test.go:112 | The ownership message for issuer "someissuer", number "somephr" and owner "someotherowner" is exactly "PHR someissuer:somephr is not owned by someotherowner". |
| Lifecycle.BuyNotTradingSamples | phr/organization/hospital/contract-go/phr/phrcontract_test.go:115-119 | An EXPIRED PHR, and one in state 0, fail as not trading. Their states are named "EXPIRED" and "UNKNOWN". |
| Lifecycle.BuyUpdateFailsSample | phr/organization/hospital/contract-go/phr/phrcontract_test.go:121-126 | A failing update comes back as "UpdatePHR error". |
| Lifecycle.BuyIssuedSample | phr/organization/hospital/contract-go/phr/phrcontract_test.go:128-134 | An ISSUED PHR bought by its owner comes back TRADING and owned by "someotherowner", and is the entity sent to the update. |
| Lifecycle.ExpireSamples | phr/organization/hospital/contract-go/phr/phrcontract_test.go:163-184 | The wrong owner gets "not owned" even on an expired PHR. The right owner gets "already expired". A TRADING PHR expires back to its issuer. |

## Left out

- `main.go`: the chaincode bootstrap and registration. This is process glue.
- `Contract.Instantiate`: it only prints.
- The embedded framework types `contractapi.Contract` and `contractapi.TransactionContext`. The context is reduced to an identity number and the cached list.
- Byte-level JSON.
  - The wire form is a structured JSON value; `Invalid` stands for bytes that do not parse, with the parser's complaint as an opaque text.
  - Escaping, field-name case-insensitive matching, fractional and exponent numbers, and invalid UTF-8 are not modelled.
  - A number that is not an integer is outside the model's `JNumber`.
- The ledger library's `StateList` and `MakeKey`, which are not part of this model.
  - Storage is a map from the composite key to the record.
  - Any namespacing by the list name is not modelled.
  - The not-found error is `NotFound(key)`, since the library's own text is not shown.
- Uncommitted writes. On the ledger platform a read does not see a write made earlier in the same transaction. The model's store does, so `PhrList.GetAfterAdd` and `PhrList.GetAfterUpdate` describe a read in a later transaction. No contract operation reads after it writes.
- The store's failures. They are injected as one read fault and one write fault rather than produced by a real ledger.
- The test doubles of `phrcontract_test.go` and `phrlist_test.go`. They are replaced by the world-state model and its call log. The test scenarios use a stored PHR whose issuer and number match the lookup key. The doubles' entity has them empty, which under this model's store would be written back under the key ":".
- The getter `GetState`: it is the field access `p.state`.
- Private `class` and `key` fields of the entity: the decoder never fills them, so they are always empty and are not part of the datatype.
- Phr.Deserialize: for a record that decodes, the contract says that it succeeds but not field by field what it decodes to. The exact result is stated for encodings (`Phr.RoundTrip`) and for the worked examples of `phr_test.go`.
- Phr.Deserialize: on a failed decode the source leaves the target partly filled. The model returns only the error, which is all the callers use.
- The list's decode function: the ledger library's generic `StateInterface` is specialised to PHR.
- Concurrency, commit conflicts, endorsement and identity: these belong to the ledger platform.
