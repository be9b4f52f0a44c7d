/** Value objects: frozen records compared by value. `UniqueEntityId` wraps the
    string form of a UUID and checks it when it is built; `ValueObject.__str__`
    gives the string form shared by all value objects. */
module ValueObjects {
  import opened Errors

  // ---------------------------------------------------------------- UUIDs

  /** A hexadecimal digit of a UUID's 128 bits. */
  type Nibble = d: int | 0 <= d < 16

  /** A UUID object (`uuid.UUID`): its 32 hexadecimal digits, most
      significant first. */
  type Uuid = ds: seq<Nibble> | |ds| == 32 witness seq(32, i => 0)

  predicate IsHexDigit(c: char)
  {
    ('0' <= c <= '9') || ('a' <= c <= 'f') || ('A' <= c <= 'F')
  }

  /** The positions of the four hyphens in the canonical 8-4-4-4-12 form. */
  predicate IsHyphenPosition(i: int)
  {
    i == 8 || i == 13 || i == 18 || i == 23
  }

  /** A string `uuid.UUID(s)` accepts, in its canonical form: 36 characters,
      hyphens at positions 8, 13, 18 and 23, hexadecimal digits elsewhere. */
  predicate IsUuid(s: string)
  {
    |s| == 36 &&
    forall i :: 0 <= i < 36 ==> if IsHyphenPosition(i) then s[i] == '-' else IsHexDigit(s[i])
  }

  function HexChar(d: Nibble): (c: char)
    ensures IsHexDigit(c)
  {
    "0123456789abcdef"[d]
  }

  /** The lower-case hexadecimal digits of a run of nibbles. */
  function Hex(ds: seq<Nibble>): (s: string)
    ensures |s| == |ds|
    ensures forall i :: 0 <= i < |s| ==> s[i] == HexChar(ds[i])
  {
    seq(|ds|, i requires 0 <= i < |ds| => HexChar(ds[i]))
  }

  /** `str(u)` for a UUID object: its digits in groups of 8, 4, 4, 4 and 12
      joined by hyphens. */
  function UuidToString(u: Uuid): string
  {
    Hex(u[..8]) + "-" + Hex(u[8..12]) + "-" + Hex(u[12..16]) + "-" + Hex(u[16..20]) + "-" + Hex(u[20..])
  }

  /** The string form of every UUID object is accepted as a UUID, and it
      carries the UUID's digits in order. */
  lemma {:induction false} UuidToStringIsUuid(u: Uuid)
    ensures IsUuid(UuidToString(u))
    ensures forall i :: 0 <= i < 36 && !IsHyphenPosition(i) ==>
              UuidToString(u)[i] == HexChar(u[i - HyphensBefore(i)])
  {
    var s := UuidToString(u);
    var a, b, c, d, e := Hex(u[..8]), Hex(u[8..12]), Hex(u[12..16]), Hex(u[16..20]), Hex(u[20..]);
    assert s == a + "-" + b + "-" + c + "-" + d + "-" + e;
    assert |s| == 36;
    forall i | 0 <= i < 36
      ensures if IsHyphenPosition(i) then s[i] == '-' else s[i] == HexChar(u[i - HyphensBefore(i)])
    {
      if i < 8 { assert s[i] == a[i]; }
      else if i == 8 { assert s[i] == "-"[0]; }
      else if i < 13 { assert s[i] == b[i - 9]; }
      else if i == 13 { assert s[i] == "-"[0]; }
      else if i < 18 { assert s[i] == c[i - 14]; }
      else if i == 18 { assert s[i] == "-"[0]; }
      else if i < 23 { assert s[i] == d[i - 19]; }
      else if i == 23 { assert s[i] == "-"[0]; }
      else { assert s[i] == e[i - 24]; }
    }
  }

  /** How many hyphens of the canonical form stand before position `i`. */
  function HyphensBefore(i: int): nat
  {
    if i <= 8 then 0 else if i <= 13 then 1 else if i <= 18 then 2 else if i <= 23 then 3 else 4
  }

  // ------------------------------------------------------- UniqueEntityId

  /** `UniqueEntityId`, after construction: `id` is always a string. */
  datatype UniqueEntityId = UniqueEntityId(id: string) {

    /** `UniqueEntityId.__str__`: the id itself. */
    function ToString(): (s: string)
    {
      id
    }
  }

  /** A UniqueEntityId as construction leaves it. `__post_init__` raises on
      an id that is not a UUID, so no UniqueEntityId holds one. */
  type ValidUid = u: UniqueEntityId | IsUuid(u.id)
    witness UniqueEntityId("00000000-0000-0000-0000-000000000000")

  /** What a UniqueEntityId may be built from: a string, or a UUID object
      (the default factory `uuid.uuid4` gives the latter). */
  datatype IdSource = FromString(s: string) | FromUuid(u: Uuid)

  /** The normalisation of `__post_init__`: a UUID object is replaced by its
      string form, a string is kept as it is. */
  function Normalize(src: IdSource): string
  {
    match src
    case FromString(s) => s
    case FromUuid(u) => UuidToString(u)
  }

  /** `__validate`: `uuid.UUID(id)` raises ValueError on a malformed id, which
      is turned into InvalidUuidException. */
  function Validate(id: string): (r: Outcome)
    ensures r.Pass? <==> IsUuid(id)
    ensures r.Fail? ==> r.error == InvalidUuid(InvalidUuidMessage)
  {
    if IsUuid(id) then Pass else Fail(InvalidUuid(InvalidUuidMessage))
  }

  /** Construction of a UniqueEntityId: normalise, then validate once. */
  function Create(src: IdSource): (r: Result<ValidUid>)
    ensures r.Ok? <==> IsUuid(Normalize(src))
    ensures r.Ok? ==> r.value.id == Normalize(src) && IsUuid(r.value.id)
    ensures r.Err? ==> r.error == InvalidUuid("Invalid UUID")
  {
    var id := Normalize(src);
    match Validate(id)
    case Pass => Ok(UniqueEntityId(id))
    case Fail(e) => Err(e)
  }

  /** A valid id string is kept unchanged, an invalid one raises
      InvalidUuidException('Invalid UUID'). */
  lemma {:induction false} CreateFromString(s: string)
    ensures IsUuid(s) ==> Create(FromString(s)) == Ok(UniqueEntityId(s))
    ensures !IsUuid(s) ==> Create(FromString(s)) == Err(InvalidUuid("Invalid UUID"))
  {
  }

  /** A UUID object is stored as its string form, and that always validates. */
  lemma {:induction false} CreateFromUuid(u: Uuid)
    ensures Create(FromUuid(u)) == Ok(UniqueEntityId(UuidToString(u)))
  {
    UuidToStringIsUuid(u);
  }

  /** `UniqueEntityId()` with no argument: the id drawn by `uuid.uuid4`, passed
      in here as `drawn`, always validates. */
  function Generate(drawn: Uuid): (r: ValidUid)
    ensures Create(FromUuid(drawn)) == Ok(r)
    ensures IsUuid(r.id) && r.ToString() == r.id
  {
    CreateFromUuid(drawn);
    UniqueEntityId(UuidToString(drawn))
  }

  /** The id of the unit tests is accepted and kept. */
  lemma TestIdIsAccepted()
    ensures Create(FromString("a0eebc99-9c0b-4ef8-bb6d-6bb9bd380a11"))
            == Ok(UniqueEntityId("a0eebc99-9c0b-4ef8-bb6d-6bb9bd380a11"))
  {
    var s := "a0eebc99-9c0b-4ef8-bb6d-6bb9bd380a11";
    assert forall i :: 0 <= i < 36 ==> if IsHyphenPosition(i) then s[i] == '-' else IsHexDigit(s[i]);
  }

  /** 'invalid-uuid' is refused with the message 'Invalid UUID'. */
  lemma TestIdIsRefused()
    ensures Create(FromString("invalid-uuid")) == Err(InvalidUuid("Invalid UUID"))
  {
    assert |"invalid-uuid"| != 36;
  }

  // ------------------------------------------------- ValueObject.__str__

  /** The fields of a value object with plain string values, in declaration
      order: (name, value). */
  type Fields = seq<(string, string)>

  predicate DistinctNames(fs: Fields)
  {
    forall i, j :: 0 <= i < j < |fs| ==> fs[i].0 != fs[j].0
  }

  function Quote(s: string): string
  {
    "\"" + s + "\""
  }

  /** One `"name": "value"` pair as `json.dumps` writes it. */
  function Member(f: (string, string)): string
  {
    Quote(f.0) + ": " + Quote(f.1)
  }

  /** The pairs of a JSON object, separated by ", ". */
  function Members(fs: Fields): string
    decreases |fs|
  {
    if |fs| == 0 then ""
    else if |fs| == 1 then Member(fs[0])
    else Member(fs[0]) + ", " + Members(fs[1..])
  }

  /** `json.dumps` of a dict of plain strings (no escaping). */
  function JsonObject(fs: Fields): string
  {
    "{" + Members(fs) + "}"
  }

  /** A string `json.dumps` writes unchanged between its quotes: printable
      ASCII, with no quote and no backslash. */
  predicate Plain(s: string)
  {
    forall i :: 0 <= i < |s| ==> ' ' <= s[i] <= '~' && s[i] != '"' && s[i] != '\\'
  }

  /** `ValueObject.__str__`: a single field gives its own string, any other
      number of fields gives a JSON object of name to value in declaration
      order. The JSON form is modelled for plain names and values only. */
  function ValueObjectToString(fs: Fields): (s: string)
    requires DistinctNames(fs)
    requires |fs| != 1 ==> forall i :: 0 <= i < |fs| ==> Plain(fs[i].0) && Plain(fs[i].1)
    ensures |fs| == 1 ==> s == fs[0].1
    ensures |fs| != 1 ==> s == JsonObject(fs)
  {
    if |fs| == 1 then fs[0].1 else JsonObject(fs)
  }

  /** `UniqueEntityId.__str__` agrees with the string form every value object
      with the single field `id` would have. */
  lemma {:induction false} UniqueEntityIdToStringIsValueObjectString(u: UniqueEntityId)
    ensures u.ToString() == ValueObjectToString([("id", u.id)])
  {
  }

  /** The one-field stub of test_unit_value_objects.py:35-36. */
  lemma StubOneToString()
    ensures ValueObjectToString([("prop", "prop-value")]) == "prop-value"
  {
  }

  lemma MemberOfProp1()
    ensures Member(("prop1", "prop1-value")) == "\"prop1\": \"prop1-value\""
  {
  }

  lemma MemberOfProp2()
    ensures Member(("prop2", "prop2-value")) == "\"prop2\": \"prop2-value\""
  {
  }

  lemma {:induction false} MembersOfStubTwo()
    ensures Members([("prop1", "prop1-value"), ("prop2", "prop2-value")])
            == "\"prop1\": \"prop1-value\", \"prop2\": \"prop2-value\""
  {
    var fs := [("prop1", "prop1-value"), ("prop2", "prop2-value")];
    assert fs[1..] == [("prop2", "prop2-value")];
    MemberOfProp1();
    MemberOfProp2();
  }

  // The text of the two-field stub, in the pieces the writer joins: the
  // opening brace with the first member, the separator, and the second member
  // with the closing brace.

  lemma OpenFirstMember()
    ensures "{" + "\"prop1\": \"prop1-value\"" == "{\"prop1\": \"prop1-value\""
  {
  }

  lemma CloseSecondMember()
    ensures "\"prop2\": \"prop2-value\"" + "}" == "\"prop2\": \"prop2-value\"}"
  {
  }

  lemma JoinStubTwo()
    ensures "{\"prop1\": \"prop1-value\"" + ", " + "\"prop2\": \"prop2-value\"}"
            == "{\"prop1\": \"prop1-value\", \"prop2\": \"prop2-value\"}"
  {
  }

  /** The two-field stub of test_unit_value_objects.py:38-39. */
  lemma {:induction false} StubTwoToString()
    ensures ValueObjectToString([("prop1", "prop1-value"), ("prop2", "prop2-value")])
            == "{\"prop1\": \"prop1-value\", \"prop2\": \"prop2-value\"}"
  {
    var fs := [("prop1", "prop1-value"), ("prop2", "prop2-value")];
    assert fs[1..] == [("prop2", "prop2-value")];
    MemberOfProp1();
    MemberOfProp2();
    OpenFirstMember();
    CloseSecondMember();
    JoinStubTwo();
    assert ValueObjectToString(fs) == ("{" + Member(fs[0])) + ", " + (Member(fs[1]) + "}");
  }

  // A reader for what JsonObject writes: the partner of its round trip.

  predicate NoQuote(s: string)
  {
    forall i :: 0 <= i < |s| ==> s[i] != '"'
  }

  /** The position of the first '"' in `s`, or |s| if there is none. */
  function QuotePos(s: string): (k: nat)
    ensures k <= |s|
    ensures NoQuote(s[..k])
    ensures k < |s| ==> s[k] == '"'
    decreases |s|
  {
    if s == [] then 0
    else if s[0] == '"' then 0
    else
      var k := QuotePos(s[1..]);
      assert s[..k + 1] == [s[0]] + s[1..][..k];
      k + 1
  }

  /** Reads a quoted string at the front of `s`; returns its contents and
      what follows the closing quote. */
  function ReadQuoted(s: string): (r: Option<(string, string)>)
    ensures r.Some? ==> |r.value.1| < |s|
  {
    if |s| == 0 || s[0] != '"' then None
    else
      var k := QuotePos(s[1..]);
      if k == |s| - 1 then None else Some((s[1..k + 1], s[k + 2..]))
  }

  function ReadMembers(s: string): Option<Fields>
    decreases |s|
  {
    if s == [] then Some([])
    else
      match ReadQuoted(s)
      case None => None
      case Some((name, rest)) =>
        if |rest| < 2 || rest[..2] != ": " then None
        else
          match ReadQuoted(rest[2..])
          case None => None
          case Some((value, tail)) =>
            if tail == [] then Some([(name, value)])
            else if |tail| < 2 || tail[..2] != ", " then None
            else
              match ReadMembers(tail[2..])
              case None => None
              case Some(more) => Some([(name, value)] + more)
  }

  /** Reads back a JSON object of plain string pairs. */
  function ReadJsonObject(s: string): Option<Fields>
  {
    if |s| < 2 || s[0] != '{' || s[|s| - 1] != '}' then None
    else ReadMembers(s[1..|s| - 1])
  }

  lemma {:induction false} QuotePosAfter(s: string, rest: string)
    requires NoQuote(s)
    ensures QuotePos(s + "\"" + rest) == |s|
    decreases |s|
  {
    if s != [] {
      assert (s + "\"" + rest)[1..] == s[1..] + "\"" + rest;
      QuotePosAfter(s[1..], rest);
    }
  }

  lemma {:induction false} ReadQuotedOf(s: string, rest: string)
    requires NoQuote(s)
    ensures ReadQuoted(Quote(s) + rest) == Some((s, rest))
  {
    var t := Quote(s) + rest;
    assert t[1..] == s + "\"" + rest;
    QuotePosAfter(s, rest);
    assert t[1..|s| + 1] == s;
    assert t[|s| + 2..] == rest;
  }

  lemma {:induction false} ReadMemberFront(f: (string, string), tail: string)
    requires NoQuote(f.0) && NoQuote(f.1)
    ensures tail == [] ==> ReadMembers(Member(f) + tail) == Some([f])
    ensures |tail| >= 2 && tail[..2] == ", " ==>
              ReadMembers(Member(f) + tail) ==
                match ReadMembers(tail[2..]) case None => None case Some(more) => Some([f] + more)
  {
    var s := Member(f) + tail;
    var rest := ": " + Quote(f.1) + tail;
    assert s == Quote(f.0) + rest;
    ReadQuotedOf(f.0, rest);
    assert rest[..2] == ": ";
    assert rest[2..] == Quote(f.1) + tail;
    ReadQuotedOf(f.1, tail);
    assert s != [];
  }

  lemma {:induction false} ReadMembersOf(fs: Fields)
    requires forall i :: 0 <= i < |fs| ==> NoQuote(fs[i].0) && NoQuote(fs[i].1)
    ensures ReadMembers(Members(fs)) == Some(fs)
    decreases |fs|
  {
    if |fs| == 1 {
      ReadMemberFront(fs[0], "");
      assert Members(fs) == Member(fs[0]) + "";
      assert [fs[0]] == fs;
    } else if |fs| > 1 {
      var tail := ", " + Members(fs[1..]);
      ReadMemberFront(fs[0], tail);
      assert Members(fs) == Member(fs[0]) + tail;
      assert tail[2..] == Members(fs[1..]);
      ReadMembersOf(fs[1..]);
      assert [fs[0]] + fs[1..] == fs;
    }
  }

  /** Round trip: the JSON form of a value object whose names and values hold
      no quote character reads back as exactly its fields, in order. */
  lemma {:induction false} JsonObjectRoundTrip(fs: Fields)
    requires forall i :: 0 <= i < |fs| ==> NoQuote(fs[i].0) && NoQuote(fs[i].1)
    ensures ReadJsonObject(JsonObject(fs)) == Some(fs)
  {
    var s := JsonObject(fs);
    assert s[1..|s| - 1] == Members(fs);
    ReadMembersOf(fs);
  }
}
