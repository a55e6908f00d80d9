/** The generated message PersonInfoPB, decoded from and encoded to a sequence of field records. */
module PersonInfoPB {

  const TWO_TO_THE_31 := 0x8000_0000
  const TWO_TO_THE_32 := 0x1_0000_0000
  const TWO_TO_THE_63 := 0x8000_0000_0000_0000
  const TWO_TO_THE_64 := 0x1_0000_0000_0000_0000

  type Int64 = x: int | -TWO_TO_THE_63 <= x < TWO_TO_THE_63
  type Int32 = x: int | -TWO_TO_THE_31 <= x < TWO_TO_THE_31
  type UInt64 = x: int | 0 <= x < TWO_TO_THE_64

  /** What follows a field's tag, by wire type; `Broken` is length-delimited text that is not valid UTF-8. */
  datatype Payload = Varint(bits: UInt64) | Text(text: string) | Broken(raw: seq<nat>) | OtherWire(raw: seq<nat>)

  datatype Record = Record(number: nat, payload: Payload)

  datatype PersonInfo = PersonInfo(
    id: Int64, name: string, age: Int32, hobbies: seq<string>, unknownFields: seq<Record>)

  datatype Result<T> = Ok(value: T) | InvalidUTF8

  const EMPTY := PersonInfo(0, "", 0, [], [])

  // Integer fields on the wire.

  /** The value modulo 2^64. */
  function BitPattern(v: Int64): (r: UInt64)
    ensures (r - v) % TWO_TO_THE_64 == 0
  {
    if v < 0 then v + TWO_TO_THE_64 else v
  }

  function Int64FromBits(bits: UInt64): (r: Int64)
    ensures (bits - r) % TWO_TO_THE_64 == 0
  {
    if bits < TWO_TO_THE_63 then bits else bits - TWO_TO_THE_64
  }

  /** `Int32(truncatingIfNeeded:)`: the low 32 bits, as a signed number. */
  function Int32FromBits(bits: UInt64): (r: Int32)
    ensures (bits - r) % TWO_TO_THE_32 == 0
  {
    var low := bits % TWO_TO_THE_32;
    if low < TWO_TO_THE_31 then low else low - TWO_TO_THE_32
  }

  lemma Int64RoundTrip(v: Int64)
    ensures Int64FromBits(BitPattern(v)) == v
  {
  }

  /** A 32-bit field is sent sign-extended to 64 bits; truncation undoes that. */
  lemma Int32RoundTrip(v: Int32)
    ensures Int32FromBits(BitPattern(v)) == v
  {
  }

  // Decoding.

  /** The field consumes the record: its number is declared and the wire type is the declared one. */
  predicate Recognised(r: Record) {
    || ((r.number == 1 || r.number == 3) && r.payload.Varint?)
    || ((r.number == 2 || r.number == 4) && (r.payload.Text? || r.payload.Broken?))
  }

  predicate Malformed(r: Record) {
    (r.number == 2 || r.number == 4) && r.payload.Broken?
  }

  function Absorb(m: PersonInfo, r: Record): PersonInfo {
    if !Recognised(r) then m.(unknownFields := m.unknownFields + [r])
    else if Malformed(r) then m
    else if r.number == 1 then m.(id := Int64FromBits(r.payload.bits))
    else if r.number == 2 then m.(name := r.payload.text)
    else if r.number == 3 then m.(age := Int32FromBits(r.payload.bits))
    else m.(hobbies := m.hobbies + [r.payload.text])
  }

  function Decode(m: PersonInfo, input: seq<Record>): Result<PersonInfo>
    decreases input
  {
    if input == [] then Ok(m)
    else if Malformed(input[0]) then InvalidUTF8
    else Decode(Absorb(m, input[0]), input[1..])
  }

  /** The decoding loop; the records it skips are appended to the message at the end. */
  method DecodeMessage(m: PersonInfo, input: seq<Record>) returns (r: Result<PersonInfo>)
    ensures r == Decode(m, input)
  {
    var self := m;
    var unknownData: seq<Record> := [];
    assert self.(unknownFields := self.unknownFields + unknownData) == m;
    for i := 0 to |input|
      invariant Decode(m, input)
                == Decode(self.(unknownFields := self.unknownFields + unknownData), input[i..])
      invariant self.unknownFields == m.unknownFields
    {
      var record := input[i];
      var consumed := false;
      match record.number {
        case 1 =>
          if record.payload.Varint? {
            self := self.(id := Int64FromBits(record.payload.bits));
            consumed := true;
          }
        case 2 =>
          if record.payload.Broken? {
            return InvalidUTF8;
          }
          if record.payload.Text? {
            self := self.(name := record.payload.text);
            consumed := true;
          }
        case 3 =>
          if record.payload.Varint? {
            self := self.(age := Int32FromBits(record.payload.bits));
            consumed := true;
          }
        case 4 =>
          if record.payload.Broken? {
            return InvalidUTF8;
          }
          if record.payload.Text? {
            self := self.(hobbies := self.hobbies + [record.payload.text]);
            consumed := true;
          }
        case _ =>
      }
      assert input[i..][1..] == input[i + 1..];
      if !consumed {
        assert self.unknownFields + (unknownData + [record]) == (self.unknownFields + unknownData) + [record];
        unknownData := unknownData + [record];
      }
    }
    self := self.(unknownFields := self.unknownFields + unknownData);
    return Ok(self);
  }

  // What decoding makes of any records.

  /** Decoding fails exactly on text that is not valid UTF-8 in one of the two text fields. */
  lemma {:induction false} DecodeFailsIff(m: PersonInfo, input: seq<Record>)
    ensures Decode(m, input) == InvalidUTF8
            <==> exists i :: 0 <= i < |input| && input[i].number in {2, 4} && input[i].payload.Broken?
    decreases input
  {
    if input != [] && !Malformed(input[0]) {
      DecodeFailsIff(Absorb(m, input[0]), input[1..]);
      assert forall i :: 0 < i < |input| ==> input[i] == input[1..][i - 1];
    }
  }

  ghost predicate IsVarint(r: Record, number: nat) {
    r.number == number && r.payload.Varint?
  }

  ghost predicate IsText(r: Record, number: nat) {
    r.number == number && r.payload.Text?
  }

  /** The last record of each singular field decides it, even by the default value. */
  lemma {:induction false} LastRecordDecides(m: PersonInfo, input: seq<Record>, i: nat)
    requires Decode(m, input).Ok? && i < |input|
    ensures var r := Decode(m, input).value;
            && (IsVarint(input[i], 1) && (forall j :: i < j < |input| ==> !IsVarint(input[j], 1)) ==>
                  r.id == Int64FromBits(input[i].payload.bits))
            && (IsText(input[i], 2) && (forall j :: i < j < |input| ==> !IsText(input[j], 2)) ==>
                  r.name == input[i].payload.text)
            && (IsVarint(input[i], 3) && (forall j :: i < j < |input| ==> !IsVarint(input[j], 3)) ==>
                  r.age == Int32FromBits(input[i].payload.bits))
    decreases input
  {
    assert forall j :: 0 < j < |input| ==> input[j] == input[1..][j - 1];
    if i > 0 {
      LastRecordDecides(Absorb(m, input[0]), input[1..], i - 1);
    } else {
      NoRecordKeeps(Absorb(m, input[0]), input[1..]);
    }
  }

  /** Without a record of its own a singular field keeps its value. */
  lemma {:induction false} NoRecordKeeps(m: PersonInfo, input: seq<Record>)
    requires Decode(m, input).Ok?
    ensures var r := Decode(m, input).value;
            && ((forall j :: 0 <= j < |input| ==> !IsVarint(input[j], 1)) ==> r.id == m.id)
            && ((forall j :: 0 <= j < |input| ==> !IsText(input[j], 2)) ==> r.name == m.name)
            && ((forall j :: 0 <= j < |input| ==> !IsVarint(input[j], 3)) ==> r.age == m.age)
    decreases input
  {
    if input != [] {
      NoRecordKeeps(Absorb(m, input[0]), input[1..]);
      assert forall j :: 0 < j < |input| ==> input[j] == input[1..][j - 1];
      assert !Malformed(input[0]);
    }
  }

  /** What a record adds to the fourth field. */
  function HobbyText(r: Record): seq<string> {
    match r
    case Record(4, Text(text)) => [text]
    case _ => []
  }

  /** What a record adds to the unknown ones: itself, if no field has its number and wire type. */
  function UnknownRecord(r: Record): seq<Record> {
    match r
    case Record(1, Varint(_)) => []
    case Record(2, Text(_)) => []
    case Record(3, Varint(_)) => []
    case Record(4, Text(_)) => []
    case _ => [r]
  }

  function HobbyTexts(input: seq<Record>): seq<string> {
    if input == [] then [] else HobbyText(input[0]) + HobbyTexts(input[1..])
  }

  function UnknownRecords(input: seq<Record>): seq<Record> {
    if input == [] then [] else UnknownRecord(input[0]) + UnknownRecords(input[1..])
  }

  lemma AbsorbGathers(m: PersonInfo, r: Record)
    requires !Malformed(r)
    ensures Absorb(m, r).hobbies == m.hobbies + HobbyText(r)
    ensures Absorb(m, r).unknownFields == m.unknownFields + UnknownRecord(r)
  {
  }

  /** The repeated field and the unknown ones gather every record of theirs, in order. */
  lemma {:induction false} ListsGather(m: PersonInfo, input: seq<Record>)
    requires Decode(m, input).Ok?
    ensures Decode(m, input).value.hobbies == m.hobbies + HobbyTexts(input)
    ensures Decode(m, input).value.unknownFields == m.unknownFields + UnknownRecords(input)
    decreases input
  {
    hide Absorb, Malformed, HobbyText, UnknownRecord;
    if input != [] {
      AbsorbGathers(m, input[0]);
      ListsGather(Absorb(m, input[0]), input[1..]);
      Associates(m.hobbies, HobbyText(input[0]), HobbyTexts(input[1..]));
      Associates(m.unknownFields, UnknownRecord(input[0]), UnknownRecords(input[1..]));
    }
  }

  lemma Associates<T>(a: seq<T>, b: seq<T>, c: seq<T>)
    ensures a + b + c == a + (b + c)
  {
  }

  // Encoding.

  function Texts(number: nat, texts: seq<string>): (r: seq<Record>)
    ensures |r| == |texts|
    ensures forall i :: 0 <= i < |r| ==> r[i] == Record(number, Text(texts[i]))
  {
    seq(|texts|, i requires 0 <= i < |texts| => Record(number, Text(texts[i])))
  }

  function Singular(m: PersonInfo): seq<Record> {
    (if m.id != 0 then [Record(1, Varint(BitPattern(m.id)))] else [])
    + (if m.name != "" then [Record(2, Text(m.name))] else [])
    + (if m.age != 0 then [Record(3, Varint(BitPattern(m.age)))] else [])
  }

  function Encode(m: PersonInfo): seq<Record> {
    Singular(m) + Texts(4, m.hobbies) + m.unknownFields
  }

  /** The visitor receives the non-default fields in the order of their numbers, then the unknown ones. */
  method Traverse(m: PersonInfo) returns (output: seq<Record>)
    ensures output == Encode(m)
  {
    output := [];
    if m.id != 0 {
      output := output + [Record(1, Varint(BitPattern(m.id)))];
    }
    if m.name != "" {
      output := output + [Record(2, Text(m.name))];
    }
    if m.age != 0 {
      output := output + [Record(3, Varint(BitPattern(m.age)))];
    }
    if m.hobbies != [] {
      output := VisitRepeatedText(output, m.hobbies, 4);
    }
    output := output + m.unknownFields;
  }

  /** One record per text, each with the field's number. */
  method VisitRepeatedText(visited: seq<Record>, texts: seq<string>, number: nat) returns (output: seq<Record>)
    ensures output == visited + Texts(number, texts)
  {
    output := visited;
    for i := 0 to |texts|
      invariant output == visited + Texts(number, texts[..i])
    {
      output := output + [Record(number, Text(texts[i]))];
      assert Texts(number, texts[..i + 1]) == Texts(number, texts[..i]) + [Record(number, Text(texts[i]))];
    }
    assert texts[..|texts|] == texts;
  }

  method Equal(lhs: PersonInfo, rhs: PersonInfo) returns (r: bool)
    ensures r <==> lhs == rhs
  {
    if lhs.id != rhs.id { return false; }
    if lhs.name != rhs.name { return false; }
    if lhs.age != rhs.age { return false; }
    if lhs.hobbies != rhs.hobbies { return false; }
    if lhs.unknownFields != rhs.unknownFields { return false; }
    return true;
  }

  /** How many records of the output precede the unknown ones. */
  function DeclaredCount(m: PersonInfo): (d: nat)
    ensures d == |Encode(m)| - |m.unknownFields|
  {
    |Singular(m)| + |m.hobbies|
  }

  /**
   The output in detail: the numbers of the declared fields never fall, and only the repeated
   field's number occurs twice; the unknown records come last.
   */
  lemma TraversalInOrder(m: PersonInfo)
    ensures var output, d := Encode(m), DeclaredCount(m);
            && output[d..] == m.unknownFields
            && (forall i :: 0 <= i < d ==> 1 <= output[i].number <= 4)
            && (forall i, j :: 0 <= i < j < d ==>
                  output[i].number < output[j].number || output[i].number == output[j].number == 4)
  {
  }

  /** A singular field occurs with its own value, and exactly when that is not the default one. */
  lemma SingularFieldsVisited(m: PersonInfo)
    ensures var output, d := Encode(m), DeclaredCount(m);
            && (forall i :: 0 <= i < d && output[i].number == 1 ==> output[i].payload == Varint(BitPattern(m.id)))
            && (forall i :: 0 <= i < d && output[i].number == 2 ==> output[i].payload == Text(m.name))
            && (forall i :: 0 <= i < d && output[i].number == 3 ==> output[i].payload == Varint(BitPattern(m.age)))
            && ((exists i :: 0 <= i < d && output[i].number == 1) <==> m.id != 0)
            && ((exists i :: 0 <= i < d && output[i].number == 2) <==> m.name != "")
            && ((exists i :: 0 <= i < d && output[i].number == 3) <==> m.age != 0)
  {
    var output := Encode(m);
    var name := if m.id != 0 then 1 else 0;
    var age := name + if m.name != "" then 1 else 0;
    assert m.id != 0 ==> output[0].number == 1;
    assert m.name != "" ==> output[name].number == 2;
    assert m.age != 0 ==> output[age].number == 3;
  }

  /** The texts of the repeated field come in their order, right before the unknown records. */
  lemma RepeatedFieldVisited(m: PersonInfo)
    ensures Encode(m)[DeclaredCount(m) - |m.hobbies|..DeclaredCount(m)] == Texts(4, m.hobbies)
    ensures forall i :: 0 <= i < DeclaredCount(m) - |m.hobbies| ==> Encode(m)[i].number < 4
  {
  }

  // Decoding what was encoded.

  /** None of the records would be consumed by a declared field. */
  ghost predicate Opaque(records: seq<Record>) {
    forall i :: 0 <= i < |records| ==> !Recognised(records[i])
  }

  /** The last non-default value of a singular field wins; repeated and unknown fields add up. */
  function Merge(x: PersonInfo, y: PersonInfo): PersonInfo {
    PersonInfo(
      if y.id != 0 then y.id else x.id,
      if y.name != "" then y.name else x.name,
      if y.age != 0 then y.age else x.age,
      x.hobbies + y.hobbies,
      x.unknownFields + y.unknownFields)
  }

  lemma {:induction false} DecodeAppend(m: PersonInfo, a: seq<Record>, b: seq<Record>)
    ensures Decode(m, a + b) == if Decode(m, a).Ok? then Decode(Decode(m, a).value, b) else InvalidUTF8
    decreases a
  {
    if a == [] {
      assert a + b == b;
    } else {
      assert (a + b)[1..] == a[1..] + b;
      if !Malformed(a[0]) {
        DecodeAppend(Absorb(m, a[0]), a[1..], b);
      }
    }
  }

  lemma {:induction false} DecodeTexts(m: PersonInfo, texts: seq<string>)
    ensures Decode(m, Texts(4, texts)) == Ok(m.(hobbies := m.hobbies + texts))
    decreases texts
  {
    if texts == [] {
      assert m.hobbies + texts == m.hobbies;
    } else {
      assert Texts(4, texts)[1..] == Texts(4, texts[1..]);
      DecodeTexts(m.(hobbies := m.hobbies + [texts[0]]), texts[1..]);
      assert m.hobbies + [texts[0]] + texts[1..] == m.hobbies + texts;
    }
  }

  lemma {:induction false} DecodeOpaque(m: PersonInfo, records: seq<Record>)
    requires Opaque(records)
    ensures Decode(m, records) == Ok(m.(unknownFields := m.unknownFields + records))
    decreases records
  {
    if records == [] {
      assert m.unknownFields + records == m.unknownFields;
    } else {
      assert !Recognised(records[0]);
      DecodeOpaque(Absorb(m, records[0]), records[1..]);
      assert m.unknownFields + [records[0]] + records[1..] == m.unknownFields + records;
    }
  }

  lemma DecodeOne(m: PersonInfo, r: Record)
    requires !Malformed(r)
    ensures Decode(m, [r]) == Ok(Absorb(m, r))
  {
    assert [r][1..] == [];
  }

  lemma DecodeSingular(m: PersonInfo, y: PersonInfo)
    ensures Decode(m, Singular(y)) == Ok(Merge(m, y).(hobbies := m.hobbies, unknownFields := m.unknownFields))
  {
    var id := if y.id != 0 then [Record(1, Varint(BitPattern(y.id)))] else [];
    var name := if y.name != "" then [Record(2, Text(y.name))] else [];
    var age := if y.age != 0 then [Record(3, Varint(BitPattern(y.age)))] else [];
    var m1 := if y.id != 0 then m.(id := y.id) else m;
    var m2 := if y.name != "" then m1.(name := y.name) else m1;
    DecodeAppend(m, id + name, age);
    DecodeAppend(m, id, name);
    if y.id != 0 {
      Int64RoundTrip(y.id);
      DecodeOne(m, id[0]);
    }
    if y.name != "" {
      DecodeOne(m1, name[0]);
    }
    if y.age != 0 {
      Int32RoundTrip(y.age);
      DecodeOne(m2, age[0]);
    }
  }

  /** How many of the records no declared field consumes. */
  function Skipped(records: seq<Record>): nat {
    if records == [] then 0 else (if Recognised(records[0]) then 0 else 1) + Skipped(records[1..])
  }

  lemma {:induction false} SkippedAppend(a: seq<Record>, b: seq<Record>)
    ensures Skipped(a + b) == Skipped(a) + Skipped(b)
  {
    if a == [] {
      assert a + b == b;
    } else {
      assert (a + b)[1..] == a[1..] + b;
      SkippedAppend(a[1..], b);
    }
  }

  lemma {:induction false} SkippedAll(records: seq<Record>)
    ensures Skipped(records) <= |records|
    ensures Skipped(records) == |records| <==> Opaque(records)
  {
    if records != [] {
      SkippedAll(records[1..]);
      assert forall i :: 0 < i < |records| ==> records[i] == records[1..][i - 1];
    }
  }

  lemma {:induction false} SkippedNone(records: seq<Record>)
    requires forall i :: 0 <= i < |records| ==> Recognised(records[i])
    ensures Skipped(records) == 0
  {
    if records != [] {
      SkippedNone(records[1..]);
    }
  }

  /** Decoding keeps exactly the skipped records, and only opaque ones. */
  lemma {:induction false} DecodeKeepsSkipped(m: PersonInfo, input: seq<Record>)
    requires Decode(m, input).Ok?
    ensures |Decode(m, input).value.unknownFields| == |m.unknownFields| + Skipped(input)
    ensures Opaque(m.unknownFields) ==> Opaque(Decode(m, input).value.unknownFields)
    decreases input
  {
    if input != [] {
      DecodeKeepsSkipped(Absorb(m, input[0]), input[1..]);
    }
  }

  // The merge of two messages.

  /** Decoding the encoding of an opaque message into another one merges the two. */
  lemma DecodeMerges(m: PersonInfo, y: PersonInfo)
    requires Opaque(y.unknownFields)
    ensures Decode(m, Encode(y)) == Ok(Merge(m, y))
  {
    DecodeAppend(m, Singular(y) + Texts(4, y.hobbies), y.unknownFields);
    DecodeAppend(m, Singular(y), Texts(4, y.hobbies));
    DecodeSingular(m, y);
    DecodeTexts(Decode(m, Singular(y)).value, y.hobbies);
    DecodeOpaque(Decode(m, Singular(y) + Texts(4, y.hobbies)).value, y.unknownFields);
  }

  /** An encoding holds as many skipped records as the message has opaque unknown fields. */
  lemma SkippedOfEncoding(y: PersonInfo)
    ensures Skipped(Encode(y)) <= |y.unknownFields|
    ensures Skipped(Encode(y)) == |y.unknownFields| <==> Opaque(y.unknownFields)
  {
    SkippedAppend(Singular(y) + Texts(4, y.hobbies), y.unknownFields);
    SkippedNone(Singular(y) + Texts(4, y.hobbies));
    SkippedAll(y.unknownFields);
  }

  /** Decoding an encoded message into another one merges the two exactly when its unknown fields are unknown indeed. */
  lemma DecodeEncodedIff(m: PersonInfo, y: PersonInfo)
    ensures Decode(m, Encode(y)) == Ok(Merge(m, y)) <==> Opaque(y.unknownFields)
  {
    if Opaque(y.unknownFields) {
      DecodeMerges(m, y);
    }
    if Decode(m, Encode(y)) == Ok(Merge(m, y)) {
      DecodeKeepsSkipped(m, Encode(y));
      SkippedOfEncoding(y);
    }
  }

  lemma MergeIntoEmpty(x: PersonInfo)
    ensures Merge(EMPTY, x) == x
  {
    assert EMPTY.hobbies + x.hobbies == x.hobbies && EMPTY.unknownFields + x.unknownFields == x.unknownFields;
  }

  /** Concatenated encodings decode to the merge of the two messages exactly when both messages' unknown fields are. */
  lemma ConcatenationMergesIff(x: PersonInfo, y: PersonInfo)
    ensures Decode(EMPTY, Encode(x) + Encode(y)) == Ok(Merge(x, y))
            <==> Opaque(x.unknownFields) && Opaque(y.unknownFields)
  {
    var input := Encode(x) + Encode(y);
    if Opaque(x.unknownFields) && Opaque(y.unknownFields) {
      DecodeAppend(EMPTY, Encode(x), Encode(y));
      DecodeMerges(EMPTY, x);
      MergeIntoEmpty(x);
      DecodeMerges(x, y);
    }
    if Decode(EMPTY, input) == Ok(Merge(x, y)) {
      DecodeKeepsSkipped(EMPTY, input);
      SkippedAppend(Encode(x), Encode(y));
      SkippedOfEncoding(x);
      SkippedOfEncoding(y);
    }
  }

  /** Round trip: a message survives encoding and decoding exactly when its unknown fields are unknown indeed. */
  lemma RoundTripIff(x: PersonInfo)
    ensures Decode(EMPTY, Encode(x)) == Ok(x) <==> Opaque(x.unknownFields)
  {
    DecodeEncodedIff(EMPTY, x);
    MergeIntoEmpty(x);
  }

  /**
   An instance that does not: an unknown record with number 1 comes back as the id.  Decoding
   never makes such a message; only assigning unknown records of another message type does.
   */
  lemma RoundTripFails(x: PersonInfo)
    requires x == EMPTY.(unknownFields := [Record(1, Varint(0))])
    ensures Decode(EMPTY, Encode(x)) == Ok(EMPTY) != Ok(x)
  {
    assert Encode(x) == x.unknownFields;
    DecodeOne(EMPTY, x.unknownFields[0]);
  }

  /** Whatever was decoded can be sent on and decoded again without loss. */
  lemma DecodedSurvives(input: seq<Record>)
    requires Decode(EMPTY, input).Ok?
    ensures Decode(EMPTY, Encode(Decode(EMPTY, input).value)) == Decode(EMPTY, input)
  {
    DecodeKeepsSkipped(EMPTY, input);
    RoundTripIff(Decode(EMPTY, input).value);
  }
}
