/** The PHR certificate: its business fields, the lifecycle state kept out of the exported
    fields, the composite key, and the custom JSON encoding that carries the state, a class
    tag and the key alongside the business fields. */
module Phr {
  import opened Results
  import opened Json
  import Keys

  /** Go's `uint` (64 bits wide on the platforms the chaincode runs on). */
  type Uint = n: int | 0 <= n < 0x1_0000_0000_0000_0000

  /** Go's `int` (64 bits). */
  type Int64 = n: int | -0x8000_0000_0000_0000 <= n < 0x8000_0000_0000_0000

  /** `type State uint`: any unsigned value can be held, only three are named. */
  type State = Uint

  const ISSUED: State := 1
  const TRADING: State := 2
  const EXPIRED: State := 3

  /** The class tag written into every encoded PHR. */
  const Class := "org.phrnet.phrlist"

  /** The prefix every decode failure carries. */
  const ErrorPrefix := "Error deserializing phr. "

  /** `State.String()`: the three named states by name, everything else "UNKNOWN". */
  function StateString(s: State): (r: string)
    ensures r == "ISSUED" <==> s == ISSUED
    ensures r == "TRADING" <==> s == TRADING
    ensures r == "EXPIRED" <==> s == EXPIRED
    ensures r == "UNKNOWN" <==> (s < ISSUED || s > EXPIRED)
  {
    var names := ["ISSUED", "TRADING", "EXPIRED"];
    if s < ISSUED || s > EXPIRED then "UNKNOWN" else names[s - 1]
  }

  /** The key a PHR is stored under: issuer and number joined by the ledger's separator. */
  function CreatePHRKey(issuer: string, phrNumber: string): (k: string)
    ensures k == issuer + [Keys.Separator] + phrNumber
  {
    assert [issuer, phrNumber][1..] == [phrNumber];
    assert Keys.MakeKey([phrNumber]) == phrNumber;
    Keys.MakeKey([issuer, phrNumber])
  }

  /** A certificate. `state` is unexported in the source: it changes only through the setters
      below and reaches storage only through `Serialize`. */
  datatype PHR = PHR(
    phrNumber: string,
    issuer: string,
    issueDateTime: string,
    faceValue: Int64,
    maturityDateTime: string,
    owner: string,
    state: State)

  /** `new(PHR)`: every field at its zero value, state 0 (no named state). */
  const Empty := PHR("", "", "", 0, "", "", 0)

  /** The six exported fields agree. */
  ghost predicate SameBusiness(a: PHR, b: PHR)
  {
    && a.phrNumber == b.phrNumber
    && a.issuer == b.issuer
    && a.issueDateTime == b.issueDateTime
    && a.faceValue == b.faceValue
    && a.maturityDateTime == b.maturityDateTime
    && a.owner == b.owner
  }

  /** `IsIssued`, `IsTrading`, `IsExpired`: each holds exactly when the state is the one its
      name gives, so at most one of them holds, and none for an unnamed state. */
  predicate IsIssued(p: PHR)
    ensures IsIssued(p) <==> StateString(p.state) == "ISSUED"
  {
    p.state == ISSUED
  }

  predicate IsTrading(p: PHR)
    ensures IsTrading(p) <==> StateString(p.state) == "TRADING"
  {
    p.state == TRADING
  }

  predicate IsExpired(p: PHR)
    ensures IsExpired(p) <==> StateString(p.state) == "EXPIRED"
  {
    p.state == EXPIRED
  }

  function SetIssued(p: PHR): (r: PHR)
    ensures IsIssued(r) && !IsTrading(r) && !IsExpired(r)
    ensures SameBusiness(r, p)
  {
    p.(state := ISSUED)
  }

  function SetTrading(p: PHR): (r: PHR)
    ensures !IsIssued(r) && IsTrading(r) && !IsExpired(r)
    ensures SameBusiness(r, p)
  {
    p.(state := TRADING)
  }

  function SetExpired(p: PHR): (r: PHR)
    ensures !IsIssued(r) && !IsTrading(r) && IsExpired(r)
    ensures SameBusiness(r, p)
  {
    p.(state := EXPIRED)
  }

  /** The parts the ledger builds the key from: issuer first, then number. */
  function GetSplitKey(p: PHR): (parts: seq<string>)
    ensures |parts| == 2 && parts[0] == p.issuer && parts[1] == p.phrNumber
    ensures Keys.MakeKey(parts) == CreatePHRKey(p.issuer, p.phrNumber)
  {
    [p.issuer, p.phrNumber]
  }

  /** The member names of an encoded PHR, in the order they are written. */
  const FieldNames := ["phrNumber", "issuer", "issueDateTime", "faceValue", "maturityDateTime",
                       "owner", "currentState", "class", "key"]

  /** `Serialize`/`MarshalJSON`: the business fields, then the hidden state under `currentState`,
      the class tag and the derived key. Encoding cannot fail for these field types. */
  function Serialize(p: PHR): (w: Wire)
    ensures w.Valid? && w.json.JObject? && |w.json.members| == |FieldNames|
    ensures forall i :: 0 <= i < |FieldNames| ==> w.json.members[i].name == FieldNames[i]
    ensures w.json.members[0].value == JString(p.phrNumber)
    ensures w.json.members[1].value == JString(p.issuer)
    ensures w.json.members[2].value == JString(p.issueDateTime)
    ensures w.json.members[3].value == JNumber(p.faceValue)
    ensures w.json.members[4].value == JString(p.maturityDateTime)
    ensures w.json.members[5].value == JString(p.owner)
    ensures w.json.members[6].value == JNumber(p.state)
    ensures w.json.members[7].value == JString(Class)
    ensures w.json.members[8].value == JString(CreatePHRKey(p.issuer, p.phrNumber))
  {
    Valid(JObject([
      Member("phrNumber", JString(p.phrNumber)),
      Member("issuer", JString(p.issuer)),
      Member("issueDateTime", JString(p.issueDateTime)),
      Member("faceValue", JNumber(p.faceValue)),
      Member("maturityDateTime", JString(p.maturityDateTime)),
      Member("owner", JString(p.owner)),
      Member("currentState", JNumber(p.state)),
      Member("class", JString(Class)),
      Member("key", JString(CreatePHRKey(p.issuer, p.phrNumber)))
    ]))
  }

  // ---------------------------------------------------------------------------------------
  // Decoding, member by member, the way `encoding/json` fills the `jsonPHR` wrapper: the
  // business fields land in the target PHR, `currentState` in the wrapper's own State (zero
  // unless present), `class` and `key` are type-checked and then dropped. A member of the
  // wrong type is skipped and the first such mismatch is what the decode reports.
  // ---------------------------------------------------------------------------------------

  const StringFields := {"phrNumber", "issuer", "issueDateTime", "maturityDateTime", "owner"}

  /** The Go type a member is decoded into, for the names the `jsonPHR` wrapper knows: the
      five string fields and the wrapper's `class` and `key` are strings, the face value is an
      `int`, `currentState` a `phr.State`. Any other name has none and is ignored. */
  function GoTypeOf(name: string): Option<string>
  {
    if name in StringFields || name == "class" || name == "key" then Some("string")
    else if name == "faceValue" then Some("int")
    else if name == "currentState" then Some("phr.State")
    else None
  }

  /** Whether a value can be stored in a field of the given Go type: a string in a string, an
      integer in the 64-bit signed range in an `int`, one in the unsigned range in a `State`. */
  predicate FitsType(v: Json, goType: string)
  {
    if goType == "string" then v.JString?
    else if goType == "int" then v.JNumber? && -0x8000_0000_0000_0000 <= v.n < 0x8000_0000_0000_0000
    else v.JNumber? && 0 <= v.n < 0x1_0000_0000_0000_0000
  }

  /** A member the decoder takes without complaint: null, of an unknown name, or fitting. */
  predicate MemberFits(m: Member)
  {
    m.value.JNull? || GoTypeOf(m.name).None? || FitsType(m.value, GoTypeOf(m.name).value)
  }

  /** Every member of a record fits. */
  predicate WellTyped(ms: seq<Member>)
  {
    forall i :: 0 <= i < |ms| ==> MemberFits(ms[i])
  }

  /** Progress of a decode: the target so far, the wrapper's state, the first mismatch seen. */
  datatype Decoding = Decoding(target: PHR, state: State, firstError: Option<DecodeError>)

  function WithString(p: PHR, name: string, s: string): PHR
  {
    if name == "phrNumber" then p.(phrNumber := s)
    else if name == "issuer" then p.(issuer := s)
    else if name == "issueDateTime" then p.(issueDateTime := s)
    else if name == "maturityDateTime" then p.(maturityDateTime := s)
    else if name == "owner" then p.(owner := s)
    else p
  }

  function Fail(d: Decoding, e: DecodeError): Decoding
  {
    if d.firstError.None? then d.(firstError := Some(e)) else d
  }

  function Mismatch(v: Json, field: string, goType: string): DecodeError
  {
    FieldTypeError(Kind(v), "jsonPHR", field, goType)
  }

  function Overflow(n: int, field: string, goType: string): DecodeError
  {
    FieldTypeError("number " + Decimal(n), "jsonPHR", field, goType)
  }

  /** The complaint about a member that does not fit: a number too large for a numeric field
      is named by its digits, any other value by its kind. */
  function MemberError(m: Member): DecodeError
    requires !MemberFits(m)
  {
    var t := GoTypeOf(m.name).value;
    if m.value.JNumber? && t != "string" then Overflow(m.value.n, m.name, t)
    else Mismatch(m.value, m.name, t)
  }

  /** One member of the record. A fitting member leaves the reported error as it was; a member
      that does not fit changes nothing but that error, which it sets unless one was set
      already. Null and unknown names change nothing; `class` and `key` never reach the
      entity or its state. */
  function DecodeMember(d: Decoding, m: Member): (r: Decoding)
    ensures MemberFits(m) ==> r.firstError == d.firstError
    ensures !MemberFits(m) ==> r == Fail(d, MemberError(m))
    ensures m.value.JNull? || GoTypeOf(m.name).None? ==> r == d
    ensures m.name == "class" || m.name == "key" ==> r.target == d.target && r.state == d.state
  {
    var v := m.value;
    if v.JNull? then d
    else if m.name in StringFields then
      if v.JString? then d.(target := WithString(d.target, m.name, v.s))
      else Fail(d, Mismatch(v, m.name, "string"))
    else if m.name == "faceValue" then
      if !v.JNumber? then Fail(d, Mismatch(v, m.name, "int"))
      else if -0x8000_0000_0000_0000 <= v.n < 0x8000_0000_0000_0000 then
        d.(target := d.target.(faceValue := v.n))
      else Fail(d, Overflow(v.n, m.name, "int"))
    else if m.name == "currentState" then
      if !v.JNumber? then Fail(d, Mismatch(v, m.name, "phr.State"))
      else if 0 <= v.n < 0x1_0000_0000_0000_0000 then d.(state := v.n)
      else Fail(d, Overflow(v.n, m.name, "phr.State"))
    else if m.name == "class" || m.name == "key" then
      if v.JString? then d else Fail(d, Mismatch(v, m.name, "string"))
    else d
  }

  /** The members in document order. A mismatch once recorded stays the one reported, and a
      record whose members all fit adds none. */
  function DecodeMembers(d: Decoding, ms: seq<Member>): (r: Decoding)
    ensures d.firstError.Some? ==> r.firstError == d.firstError
    ensures WellTyped(ms) ==> r.firstError == d.firstError
    decreases |ms|
  {
    if |ms| == 0 then d
    else
      assert WellTyped(ms) ==> MemberFits(ms[0]) && WellTyped(ms[1..]) by {
        if WellTyped(ms) {
          forall i | 0 <= i < |ms[1..]| ensures MemberFits(ms[1..][i]) {
            assert ms[1..][i] == ms[i + 1];
          }
        }
      }
      DecodeMembers(DecodeMember(d, ms[0]), ms[1..])
  }

  /** `Deserialize(bytes, phr)`: decode onto `target`. Any failure is reported as the fixed
      prefix followed by the decoder's own message; on success the state comes from
      `currentState` with no range check against the named states. */
  function Deserialize(w: Wire, target: PHR): (r: Result<PHR>)
    ensures r.Err? ==> r.error.Message? && ErrorPrefix <= r.error.text
    ensures w.Invalid? ==> r == Err(Message(ErrorPrefix + w.complaint))
    ensures w.Valid? && w.json.JNull? ==> r == Ok(target.(state := 0))
    ensures w.Valid? && !w.json.JObject? && !w.json.JNull? ==>
              r == Err(Message(ErrorPrefix + ("json: cannot unmarshal " + Kind(w.json)
                                              + " into Go value of type " + "phr.jsonPHR")))
    ensures w.Valid? && w.json.JObject? && WellTyped(w.json.members) ==> r.Ok?
  {
    match w
    case Invalid(c) => Err(Message(ErrorPrefix + ErrorText(SyntaxError(c))))
    case Valid(JObject(ms)) =>
      var d := DecodeMembers(Decoding(target, 0, None), ms);
      if d.firstError.Some? then Err(Message(ErrorPrefix + ErrorText(d.firstError.value)))
      else Ok(d.target.(state := d.state))
    case Valid(JNull) => Ok(target.(state := 0))
    case Valid(j) => Err(Message(ErrorPrefix + ErrorText(ValueTypeError(Kind(j), "phr.jsonPHR"))))
  }

  // ---------------------------------------------------------------------------------------
  // Properties of the encoding
  // ---------------------------------------------------------------------------------------

  /** Decoding from position `k` on is the member at `k`, then the rest. */
  lemma DecodeMembersStep(d: Decoding, ms: seq<Member>, k: nat)
    requires k < |ms|
    ensures DecodeMembers(d, ms[k..]) == DecodeMembers(DecodeMember(d, ms[k]), ms[k + 1..])
  {
    assert ms[k..][0] == ms[k];
    assert ms[k..][1..] == ms[k + 1..];
  }

  /** A string member for a business field sets that field and nothing else. */
  lemma StringStep(d: Decoding, name: string, s: string)
    requires name in StringFields
    ensures DecodeMember(d, Member(name, JString(s))) == d.(target := WithString(d.target, name, s))
  {
  }

  /** An in-range `faceValue` sets the face value. */
  lemma FaceValueStep(d: Decoding, n: Int64)
    ensures DecodeMember(d, Member("faceValue", JNumber(n))) == d.(target := d.target.(faceValue := n))
  {
  }

  /** An in-range `currentState` sets the wrapper's state. */
  lemma StateStep(d: Decoding, s: State)
    ensures DecodeMember(d, Member("currentState", JNumber(s))) == d.(state := s)
  {
  }

  /** The six business members of an encoding carry every business field of `p` onto any
      target, and leave its state and the reported error alone. */
  lemma BusinessDecoded(p: PHR, d: Decoding)
    ensures DecodeMembers(d, Serialize(p).json.members[..6]) == d.(target := p.(state := d.target.state))
  {
    var b := Serialize(p).json.members[..6];
    var d1 := d.(target := WithString(d.target, "phrNumber", p.phrNumber));
    var d2 := d1.(target := WithString(d1.target, "issuer", p.issuer));
    var d3 := d2.(target := WithString(d2.target, "issueDateTime", p.issueDateTime));
    var d4 := d3.(target := d3.target.(faceValue := p.faceValue));
    var d5 := d4.(target := WithString(d4.target, "maturityDateTime", p.maturityDateTime));
    var d6 := d5.(target := WithString(d5.target, "owner", p.owner));
    StringStep(d, "phrNumber", p.phrNumber);
    StringStep(d1, "issuer", p.issuer);
    StringStep(d2, "issueDateTime", p.issueDateTime);
    FaceValueStep(d3, p.faceValue);
    StringStep(d4, "maturityDateTime", p.maturityDateTime);
    StringStep(d5, "owner", p.owner);
    assert b[0..] == b;
    DecodeMembersStep(d, b, 0);
    DecodeMembersStep(d1, b, 1);
    DecodeMembersStep(d2, b, 2);
    DecodeMembersStep(d3, b, 3);
    DecodeMembersStep(d4, b, 4);
    DecodeMembersStep(d5, b, 5);
    assert DecodeMembers(d6, b[6..]) == d6;
    assert d6.target == p.(state := d.target.state);
  }

  /** The last three members of an encoding set the wrapper's state to `p`'s and change
      nothing else. */
  lemma TrailerDecoded(p: PHR, d: Decoding)
    ensures DecodeMembers(d, Serialize(p).json.members[6..]) == d.(state := p.state)
  {
    var t := Serialize(p).json.members[6..];
    var d7 := d.(state := p.state);
    StateStep(d, p.state);
    assert t[0..] == t;
    DecodeMembersStep(d, t, 0);
    DecodeMembersStep(d7, t, 1);
    DecodeMembersStep(d7, t, 2);
    assert DecodeMembers(d7, t[3..]) == d7;
  }

  /** Decoding an encoded PHR, onto any target, gives back every business field and the state. */
  lemma RoundTrip(p: PHR, target: PHR)
    ensures Deserialize(Serialize(p), target) == Ok(p)
  {
    var ms := Serialize(p).json.members;
    var d0 := Decoding(target, 0, None);
    assert ms == ms[..6] + ms[6..];
    DecodeMembersAppend(d0, ms[..6], ms[6..]);
    BusinessDecoded(p, d0);
    var d6 := d0.(target := p.(state := target.state));
    TrailerDecoded(p, d6);
    DecodedReported(ms, target, d6.(state := p.state));
  }

  /** A record whose members leave no error recorded decodes to the target they built, with
      the state they set. */
  lemma DecodedReported(ms: seq<Member>, target: PHR, d: Decoding)
    requires DecodeMembers(Decoding(target, 0, None), ms) == d && d.firstError.None?
    ensures Deserialize(Valid(JObject(ms)), target) == Ok(d.target.(state := d.state))
  {
  }

  /** `class` and `key` carry no information into the entity: two members differ only there. */
  ghost predicate SameButInformational(m: Member, m': Member)
  {
    m == m' ||
    (m.name == m'.name && (m.name == "class" || m.name == "key")
     && m.value.JString? && m'.value.JString?)
  }

  lemma {:induction false} DecodeIgnoresInformational(d: Decoding, ms: seq<Member>, ms': seq<Member>)
    requires |ms| == |ms'|
    requires forall i :: 0 <= i < |ms| ==> SameButInformational(ms[i], ms'[i])
    ensures DecodeMembers(d, ms) == DecodeMembers(d, ms')
    decreases |ms|
  {
    if |ms| > 0 {
      assert SameButInformational(ms[0], ms'[0]);
      assert DecodeMember(d, ms[0]) == DecodeMember(d, ms'[0]);
      DecodeIgnoresInformational(DecodeMember(d, ms[0]), ms[1..], ms'[1..]);
    }
  }

  /** Decode does not check the class tag or the key against the entity: a record whose `class`
      or `key` strings are replaced by any others decodes exactly as before. */
  lemma DeserializeIgnoresClassAndKey(ms: seq<Member>, ms': seq<Member>, target: PHR)
    requires |ms| == |ms'|
    requires forall i :: 0 <= i < |ms| ==> SameButInformational(ms[i], ms'[i])
    ensures Deserialize(Valid(JObject(ms)), target) == Deserialize(Valid(JObject(ms')), target)
  {
    DecodeIgnoresInformational(Decoding(target, 0, None), ms, ms');
  }

  /** A member of any known name whose value does not fit its Go type fails the decode,
      whatever follows it; when it is the first such member the message is the prefix followed
      by the decoder's complaint about it. */
  lemma MistypedMemberFails(before: seq<Member>, m: Member, after: seq<Member>, target: PHR)
    requires !MemberFits(m)
    requires DecodeMembers(Decoding(target, 0, None), before).firstError.None?
    ensures Deserialize(Valid(JObject(before + [m] + after)), target)
         == Err(Message(ErrorPrefix + ErrorText(MemberError(m))))
  {
    var d0 := Decoding(target, 0, None);
    var ms := before + [m] + after;
    assert ms == before + ([m] + after);
    DecodeMembersAppend(d0, before, [m] + after);
    MistypedMemberRecorded(DecodeMembers(d0, before), m, after);
    ErrorReported(ms, target, MemberError(m));
  }

  /** From a clean decoding, a member that does not fit is the error the rest reports. */
  lemma MistypedMemberRecorded(d: Decoding, m: Member, after: seq<Member>)
    requires !MemberFits(m) && d.firstError.None?
    ensures DecodeMembers(d, [m] + after).firstError == Some(MemberError(m))
  {
    var rest := [m] + after;
    assert rest[0] == m;
    assert rest[1..] == after;
    assert DecodeMember(d, m).firstError == Some(MemberError(m));
  }

  /** The error a record's members leave recorded is the one `Deserialize` reports. */
  lemma ErrorReported(ms: seq<Member>, target: PHR, e: DecodeError)
    requires DecodeMembers(Decoding(target, 0, None), ms).firstError == Some(e)
    ensures Deserialize(Valid(JObject(ms)), target) == Err(Message(ErrorPrefix + ErrorText(e)))
  {
  }

  /** A record decodes exactly when every member fits: null, unknown, or of its field's type. */
  lemma DeserializeOkIff(ms: seq<Member>, target: PHR)
    ensures Deserialize(Valid(JObject(ms)), target).Ok? <==> WellTyped(ms)
  {
    if !WellTyped(ms) {
      var i :| 0 <= i < |ms| && !MemberFits(ms[i]);
      var d0 := Decoding(target, 0, None);
      assert ms == ms[..i] + ms[i..];
      DecodeMembersAppend(d0, ms[..i], ms[i..]);
      var db := DecodeMembers(d0, ms[..i]);
      DecodeMembersStep(db, ms, i);
      assert DecodeMember(db, ms[i]).firstError.Some?;
    }
  }

  /** Decoding a concatenation decodes the first part, then the second from where it left off. */
  lemma {:induction false} DecodeMembersAppend(d: Decoding, a: seq<Member>, b: seq<Member>)
    ensures DecodeMembers(d, a + b) == DecodeMembers(DecodeMembers(d, a), b)
    decreases |a|
  {
    if |a| == 0 {
      assert a + b == b;
    } else {
      assert (a + b)[0] == a[0];
      assert (a + b)[1..] == a[1..] + b;
      DecodeMembersAppend(DecodeMember(d, a[0]), a[1..], b);
    }
  }

  /** Any `currentState` an unsigned integer can hold is copied as is, named or not. */
  lemma StateCopiedUnchecked(p: PHR, s: State, target: PHR)
    ensures Deserialize(Serialize(p.(state := s)), target) == Ok(p.(state := s))
    ensures (s < ISSUED || s > EXPIRED) ==> StateString(Deserialize(Serialize(p.(state := s)), target).value.state) == "UNKNOWN"
  {
    RoundTrip(p.(state := s), target);
  }

  /** The key is fixed by issuer and number, and gives them back when neither contains the
      separator. */
  lemma KeyDeterminesIdentity(i: string, n: string, i': string, n': string)
    requires Keys.Separator !in i && Keys.Separator !in n
    requires Keys.Separator !in i' && Keys.Separator !in n'
    requires CreatePHRKey(i, n) == CreatePHRKey(i', n')
    ensures i == i' && n == n'
  {
    Keys.MakeKeyInjective([i, n], [i', n']);
  }

  /** Without that restriction two different PHRs share a key. */
  lemma KeyCollision()
    ensures CreatePHRKey("a:b", "c") == CreatePHRKey("a", "b:c")
  {
  }

  // ---------------------------------------------------------------------------------------
  // The worked examples of `phr_test.go`
  // ---------------------------------------------------------------------------------------

  const Sample := PHR("somephr", "someissuer", "sometime", 1000, "somelatertime", "someowner", TRADING)

  /** The test record, with the class tag and the face value as given. */
  function SampleMembers(classTag: string, faceValue: Json): seq<Member>
  {
    [ Member("phrNumber", JString("somephr")),
      Member("issuer", JString("someissuer")),
      Member("issueDateTime", JString("sometime")),
      Member("faceValue", faceValue),
      Member("maturityDateTime", JString("somelatertime")),
      Member("owner", JString("someowner")),
      Member("currentState", JNumber(2)),
      Member("class", JString(classTag)),
      Member("key", JString("someissuer:somephr")) ]
  }

  /** The sample PHR encodes to the record the test expects, key "someissuer:somephr" included. */
  lemma SerializeSample()
    ensures Serialize(Sample) == Valid(JObject(SampleMembers("org.phrnet.phrlist", JNumber(1000))))
  {
    assert "someissuer" + [Keys.Separator] == "someissuer:";
    assert "someissuer:" + "somephr" == "someissuer:somephr";
  }

  /** A record tagged with a different class still decodes to the expected PHR. */
  lemma DeserializeSample()
    ensures Deserialize(Valid(JObject(SampleMembers("org.phrnet.phr", JNumber(1000)))), Empty) == Ok(Sample)
  {
    var ms := SampleMembers("org.phrnet.phrlist", JNumber(1000));
    var ms' := SampleMembers("org.phrnet.phr", JNumber(1000));
    SerializeSample();
    assert forall i :: 0 <= i < |ms| ==> SameButInformational(ms[i], ms'[i]);
    DeserializeIgnoresClassAndKey(ms, ms', Empty);
    RoundTrip(Sample, Empty);
  }

  /** A string where the face value belongs gives the prefixed type-mismatch message. */
  lemma DeserializeBadFaceValue()
    ensures Deserialize(Valid(JObject(SampleMembers("org.phrnet.phrlist", JString("NaN")))), Empty)
         == Err(Message(ErrorPrefix + "json: cannot unmarshal string into Go struct field jsonPHR.faceValue of type int"))
  {
    var ms := SampleMembers("org.phrnet.phrlist", JString("NaN"));
    assert ms == ms[..3] + [ms[3]] + ms[4..];
    assert WellTyped(ms[..3]);
    MistypedMemberFails(ms[..3], ms[3], ms[4..], Empty);
    MismatchText();
  }

  /** The decoder's complaint in that failure, assembled piece by piece. */
  lemma MismatchText()
    ensures ErrorText(FieldTypeError("string", "jsonPHR", "faceValue", "int"))
         == "json: cannot unmarshal string into Go struct field jsonPHR.faceValue of type int"
  {
    MismatchTextHead();
    assert "json: cannot unmarshal string into Go struct field jsonPHR" + "."
        == "json: cannot unmarshal string into Go struct field jsonPHR.";
    assert "json: cannot unmarshal string into Go struct field jsonPHR." + "faceValue"
        == "json: cannot unmarshal string into Go struct field jsonPHR.faceValue";
    assert "json: cannot unmarshal string into Go struct field jsonPHR.faceValue" + " of type "
        == "json: cannot unmarshal string into Go struct field jsonPHR.faceValue of type ";
    assert "json: cannot unmarshal string into Go struct field jsonPHR.faceValue of type " + "int"
        == "json: cannot unmarshal string into Go struct field jsonPHR.faceValue of type int";
  }

  /** A proof step of `MismatchText`: the part of that complaint before the field name. */
  lemma MismatchTextHead()
    ensures "json: cannot unmarshal " + "string" + " into Go struct field " + "jsonPHR"
         == "json: cannot unmarshal string into Go struct field jsonPHR"
  {
    assert "json: cannot unmarshal " + "string" == "json: cannot unmarshal string";
    assert "json: cannot unmarshal string" + " into Go struct field "
        == "json: cannot unmarshal string into Go struct field ";
    assert "json: cannot unmarshal string into Go struct field " + "jsonPHR"
        == "json: cannot unmarshal string into Go struct field jsonPHR";
  }
}
