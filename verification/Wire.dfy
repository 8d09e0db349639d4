/**
 The Protocol Buffers wire format, as far as telemetry uses it: base-128 varints, eight-byte
 and length-delimited fields. The encoder is the agent's; the reader is the Worker's, which
 refuses any number above a limit.
 */
module Wire {
  import opened Telemetry
  import opened Wrappers

  datatype Payload = Varint(value: nat) | Fixed64(bits: Double) | Bytes(data: Text) | Fixed32

  datatype Field = Field(number: nat, payload: Payload)

  // ----- Varints -----

  function VarintBytes(value: nat): Text {
    if value < 0x80 then [value] else [0x80 + value % 0x80] + VarintBytes(value / 0x80)
  }

  /** At most ten bytes, low groups of seven bits first, the top bit marking that more follow. */
  function ReadVarint(bytes: Text, index: nat): Option<(nat, Text)>
    decreases |bytes|
  {
    if index >= 10 || bytes == [] then None
    else if bytes[0] < 0x80 then Some((bytes[0], bytes[1..]))
    else
      match ReadVarint(bytes[1..], index + 1)
      case Some((high, rest)) => Some((bytes[0] - 0x80 + 0x80 * high, rest))
      case None => None
  }

  function Power128(n: nat): nat {
    if n == 0 then 1 else 0x80 * Power128(n - 1)
  }

  lemma {:induction false} VarintLength(value: nat, n: nat)
    requires n > 0
    ensures |VarintBytes(value)| >= 1
    ensures |VarintBytes(value)| <= n <==> value < Power128(n)
    decreases n
  {
    if value < 0x80 {
      PowerPositive(n - 1);
    } else if n == 1 {
      VarintNonEmpty(value / 0x80);
    } else {
      VarintLength(value / 0x80, n - 1);
    }
  }

  lemma {:induction false} VarintNonEmpty(value: nat)
    ensures |VarintBytes(value)| >= 1
  {
  }

  lemma {:induction false} PowerPositive(n: nat)
    ensures Power128(n) >= 1
  {
    if n == 0 {
    } else {
      PowerPositive(n - 1);
    }
  }

  lemma VarintOfU64(value: nat)
    requires value < 0x1_0000_0000_0000_0000
    ensures 1 <= |VarintBytes(value)| <= 10
  {
    assert Power128(3) == 0x20_0000;
    assert Power128(6) == 0x400_0000_0000;
    assert Power128(9) == 0x8000_0000_0000_0000;
    assert Power128(10) == 0x40_0000_0000_0000_0000;
    VarintLength(value, 10);
  }

  lemma {:induction false} ReadVarintBytes(value: nat, rest: Text, index: nat)
    requires index + |VarintBytes(value)| <= 10
    ensures ReadVarint(VarintBytes(value) + rest, index) == Some((value, rest))
    decreases value
  {
    var bytes := VarintBytes(value) + rest;
    if value >= 0x80 {
      VarintNonEmpty(value / 0x80);
      ReadVarintBytes(value / 0x80, rest, index + 1);
      assert bytes[1..] == VarintBytes(value / 0x80) + rest;
    } else {
      assert bytes[1..] == rest;
    }
  }

  lemma {:induction false} ReadVarintTooLong(value: nat, rest: Text, index: nat)
    requires index <= 10 < index + |VarintBytes(value)|
    ensures ReadVarint(VarintBytes(value) + rest, index) == None
    decreases value
  {
    var bytes := VarintBytes(value) + rest;
    if value >= 0x80 && index < 10 {
      VarintNonEmpty(value / 0x80);
      ReadVarintTooLong(value / 0x80, rest, index + 1);
      assert bytes[1..] == VarintBytes(value / 0x80) + rest;
    }
  }

  /** Whatever bytes read as a number, the encoder's are no longer. */
  lemma {:induction false} ShortestForm(bytes: Text, index: nat)
    requires ReadVarint(bytes, index).Some?
    ensures var (value, rest) := ReadVarint(bytes, index).value;
            |rest| < |bytes| && |VarintBytes(value)| <= |bytes| - |rest|
    decreases |bytes|
  {
    var (value, rest) := ReadVarint(bytes, index).value;
    if bytes[0] >= 0x80 {
      ShortestForm(bytes[1..], index + 1);
      if value >= 0x80 {
        assert value / 0x80 == ReadVarint(bytes[1..], index + 1).value.0;
      }
    }
  }

  // ----- Fields -----

  function WireType(p: Payload): nat {
    match p
    case Varint(_) => 0
    case Fixed64(_) => 1
    case Bytes(_) => 2
    case Fixed32 => 5
  }

  function PayloadBytes(p: Payload): Text {
    match p
    case Varint(value) => VarintBytes(value)
    case Fixed64(bits) => bits
    case Bytes(data) => VarintBytes(|data|) + data
    case Fixed32 => [0, 0, 0, 0]
  }

  function FieldBytes(f: Field): Text {
    VarintBytes(f.number * 8 + WireType(f.payload)) + PayloadBytes(f.payload)
  }

  function Encode(fields: seq<Field>): Text {
    if fields == [] then [] else FieldBytes(fields[0]) + Encode(fields[1..])
  }

  lemma {:induction false} EncodeConcat(a: seq<Field>, b: seq<Field>)
    ensures Encode(a + b) == Encode(a) + Encode(b)
  {
    if a == [] {
      assert a + b == b;
    } else {
      assert (a + b)[1..] == a[1..] + b;
      EncodeConcat(a[1..], b);
    }
  }

  /** A number as the reader takes it: one above the limit is an error. */
  function ReadNumber(bytes: Text, limit: nat): Option<(nat, Text)> {
    match ReadVarint(bytes, 0)
    case Some((value, rest)) => if value > limit then None else Some((value, rest))
    case None => None
  }

  function ReadPayload(wire: nat, bytes: Text, limit: nat): Option<(Payload, Text)> {
    if wire == 0 then
      match ReadNumber(bytes, limit)
      case Some((value, rest)) => Some((Varint(value), rest))
      case None => None
    else if wire == 1 then
      if |bytes| < 8 then None else Some((Fixed64(bytes[..8]), bytes[8..]))
    else if wire == 2 then
      match ReadNumber(bytes, limit)
      case Some((length, rest)) => if length > |rest| then None else Some((Bytes(rest[..length]), rest[length..]))
      case None => None
    else if wire == 5 then
      if |bytes| < 4 then None else Some((Fixed32, bytes[4..]))
    else None
  }

  function ReadField(bytes: Text, limit: nat): Option<(Field, Text)> {
    match ReadNumber(bytes, limit)
    case Some((key, rest)) =>
      if key / 8 == 0 then None
      else (match ReadPayload(key % 8, rest, limit)
            case Some((payload, after)) => Some((Field(key / 8, payload), after))
            case None => None)
    case None => None
  }

  lemma {:induction false} ReadShortens(bytes: Text, index: nat)
    ensures ReadVarint(bytes, index).Some? ==> |ReadVarint(bytes, index).value.1| < |bytes|
    decreases |bytes|
  {
    if index < 10 && bytes != [] { ReadShortens(bytes[1..], index + 1); }
  }

  lemma FieldShortens(bytes: Text, limit: nat)
    ensures ReadField(bytes, limit).Some? ==> |ReadField(bytes, limit).value.1| < |bytes|
  {
    ReadShortens(bytes, 0);
    if ReadNumber(bytes, limit).Some? {
      ReadShortens(ReadNumber(bytes, limit).value.1, 0);
    }
  }

  /** All fields of a message, in order. */
  function Parse(bytes: Text, limit: nat): Result<seq<Field>>
    decreases |bytes|
  {
    if bytes == [] then Ok([])
    else
      match ReadField(bytes, limit)
      case None => Err
      case Some((field, rest)) =>
        FieldShortens(bytes, limit);
        match Parse(rest, limit)
        case Ok(fields) => Ok([field] + fields)
        case Err => Err
  }

  /** What the agent's encoder emits: a small field number. */
  predicate Emitted(f: Field) {
    1 <= f.number < 0x2000_0000
  }

  predicate NumberFits(f: Field, limit: nat) {
    match f.payload
    case Varint(value) => value <= limit
    case Bytes(data) => |data| <= limit
    case Fixed64(_) => true
    case Fixed32 => true
  }

  ghost predicate AllEmitted(fields: seq<Field>) {
    forall i :: 0 <= i < |fields| ==> Emitted(fields[i])
  }

  ghost predicate AllNumbersFit(fields: seq<Field>, limit: nat) {
    forall i :: 0 <= i < |fields| ==> NumberFits(fields[i], limit)
  }

  lemma ReadEncodedNumber(value: nat, rest: Text, limit: nat)
    requires limit < 0x1_0000_0000_0000_0000
    ensures ReadNumber(VarintBytes(value) + rest, limit) == if value <= limit then Some((value, rest)) else None
  {
    if |VarintBytes(value)| <= 10 {
      ReadVarintBytes(value, rest, 0);
    } else {
      ReadVarintTooLong(value, rest, 0);
      if value <= limit { VarintOfU64(value); }
    }
  }

  lemma ReadEncodedPayload(f: Field, rest: Text, limit: nat)
    requires Emitted(f) && limit < 0x1_0000_0000_0000_0000
    ensures ReadPayload(WireType(f.payload), PayloadBytes(f.payload) + rest, limit)
         == if NumberFits(f, limit) then Some((f.payload, rest)) else None
  {
    match f.payload
    case Varint(value) => ReadEncodedNumber(value, rest, limit);
    case Fixed64(bits) => assert (bits + rest)[..8] == bits && (bits + rest)[8..] == rest;
    case Fixed32 => assert ([0, 0, 0, 0] + rest)[4..] == rest;
    case Bytes(data) =>
      assert VarintBytes(|data|) + data + rest == VarintBytes(|data|) + (data + rest);
      ReadEncodedNumber(|data|, data + rest, limit);
      assert (data + rest)[..|data|] == data && (data + rest)[|data|..] == rest;
  }

  lemma ReadEncodedField(f: Field, rest: Text, limit: nat)
    requires Emitted(f) && 0xFFFF_FFFF <= limit < 0x1_0000_0000_0000_0000
    ensures ReadField(FieldBytes(f) + rest, limit) == if NumberFits(f, limit) then Some((f, rest)) else None
    ensures |FieldBytes(f)| > 0
  {
    var key := f.number * 8 + WireType(f.payload);
    VarintNonEmpty(key);
    var body := PayloadBytes(f.payload);
    assert FieldBytes(f) + rest == VarintBytes(key) + (body + rest);
    ReadEncodedNumber(key, body + rest, limit);
    ReadEncodedPayload(f, rest, limit);
  }

  /** Reading what was encoded gives the same fields, exactly when no number is above the limit. */
  lemma {:induction false} ParseEncoded(fields: seq<Field>, limit: nat)
    requires AllEmitted(fields) && 0xFFFF_FFFF <= limit < 0x1_0000_0000_0000_0000
    ensures Parse(Encode(fields), limit) == if AllNumbersFit(fields, limit) then Ok(fields) else Err
  {
    if fields == [] {
    } else {
      ReadEncodedField(fields[0], Encode(fields[1..]), limit);
      ParseEncoded(fields[1..], limit);
      assert fields == [fields[0]] + fields[1..];
      assert AllNumbersFit(fields, limit) <==> NumberFits(fields[0], limit) && AllNumbersFit(fields[1..], limit);
    }
  }

  /** The example of the encoding guide of Protocol Buffers: field 1 with the number 150. */
  lemma {:induction false} DocumentedExample()
    ensures FieldBytes(Field(1, Varint(150))) == [0x08, 0x96, 0x01]
    ensures FieldBytes(Field(2, Bytes([0x74, 0x65, 0x73, 0x74, 0x69, 0x6E, 0x67])))
         == [0x12, 0x07, 0x74, 0x65, 0x73, 0x74, 0x69, 0x6E, 0x67]
  {
  }

  // ----- Messages as slots -----

  /**
   A message is a list of slots: a field number and the values sent for it, none for an absent
   optional, several for a repeated field.
   */
  function SlotFields(number: nat, values: seq<Payload>): seq<Field> {
    seq(|values|, i requires 0 <= i < |values| => Field(number, values[i]))
  }

  function FieldsOf(numbers: seq<nat>, values: seq<seq<Payload>>): seq<Field>
    requires |numbers| == |values|
  {
    if numbers == [] then []
    else
      FieldsOf(numbers[..|numbers| - 1], values[..|values| - 1])
      + SlotFields(numbers[|numbers| - 1], values[|values| - 1])
  }

  function MessageBytes(numbers: seq<nat>, values: seq<seq<Payload>>): Text
    requires |numbers| == |values|
  {
    Encode(FieldsOf(numbers, values))
  }

  /** The values of all fields with a number, in order. */
  function AllAt(fields: seq<Field>, number: nat): seq<Payload> {
    if fields == [] then []
    else (if fields[0].number == number then [fields[0].payload] else []) + AllAt(fields[1..], number)
  }

  function Gather(numbers: seq<nat>, fields: seq<Field>): seq<seq<Payload>> {
    seq(|numbers|, i requires 0 <= i < |numbers| => AllAt(fields, numbers[i]))
  }

  ghost predicate Distinct(numbers: seq<nat>) {
    forall i, j :: 0 <= i < j < |numbers| ==> numbers[i] != numbers[j]
  }

  lemma {:induction false} AllAtConcat(a: seq<Field>, b: seq<Field>, number: nat)
    ensures AllAt(a + b, number) == AllAt(a, number) + AllAt(b, number)
  {
    if a == [] {
      assert a + b == b;
    } else {
      var first := if a[0].number == number then [a[0].payload] else [];
      AllAtConcat(a[1..], b, number);
      assert AllAt(a + b, number) == first + AllAt(a[1..] + b, number) by {
        assert (a + b)[1..] == a[1..] + b;
      }
      Associative(first, AllAt(a[1..], number), AllAt(b, number));
    }
  }

  lemma Associative<T>(a: seq<T>, b: seq<T>, c: seq<T>)
    ensures a + b + c == a + (b + c)
  {
  }

  lemma {:induction false} AllAtSlot(own: nat, values: seq<Payload>, number: nat)
    ensures AllAt(SlotFields(own, values), number) == if own == number then values else []
  {
    if values == [] {
    } else {
      AllAtSlot(own, values[1..], number);
      assert SlotFields(own, values)[1..] == SlotFields(own, values[1..]);
    }
  }

  lemma {:induction false} AllAtFieldsOf(numbers: seq<nat>, values: seq<seq<Payload>>, number: nat)
    requires |numbers| == |values| && Distinct(numbers)
    ensures number !in numbers ==> AllAt(FieldsOf(numbers, values), number) == []
    ensures forall i :: 0 <= i < |numbers| && numbers[i] == number ==> AllAt(FieldsOf(numbers, values), number) == values[i]
  {
    if numbers == [] {
    } else {
      var n := |numbers| - 1;
      AllAtFieldsOf(numbers[..n], values[..n], number);
      AllAtConcat(FieldsOf(numbers[..n], values[..n]), SlotFields(numbers[n], values[n]), number);
      AllAtSlot(numbers[n], values[n], number);
    }
  }

  /** Gathering the fields of a message by number gives its slots back, whatever their order. */
  lemma {:induction false} GatherFieldsOf(numbers: seq<nat>, values: seq<seq<Payload>>)
    requires |numbers| == |values| && Distinct(numbers)
    ensures Gather(numbers, FieldsOf(numbers, values)) == values
  {
    forall i | 0 <= i < |numbers|
      ensures AllAt(FieldsOf(numbers, values), numbers[i]) == values[i]
    {
      AllAtFieldsOf(numbers, values, numbers[i]);
    }
  }

  lemma {:induction false} InFieldsOf(numbers: seq<nat>, values: seq<seq<Payload>>, f: Field)
    requires |numbers| == |values|
    ensures f in FieldsOf(numbers, values) <==>
            exists i :: 0 <= i < |numbers| && numbers[i] == f.number && f.payload in values[i]
  {
    if numbers == [] {
    } else {
      var n := |numbers| - 1;
      InFieldsOf(numbers[..n], values[..n], f);
      if f in SlotFields(numbers[n], values[n]) {
        assert numbers[n] == f.number && f.payload in values[n];
      }
      if i :| 0 <= i < |numbers| && numbers[i] == f.number && f.payload in values[i] {
        if i < n {
          assert numbers[..n][i] == f.number && f.payload in values[..n][i];
        } else {
          var k :| 0 <= k < |values[n]| && values[n][k] == f.payload;
          assert SlotFields(numbers[n], values[n])[k] == f;
        }
      }
    }
  }

  /** A value of length-delimited kind is no longer than its message. */
  lemma PartFits(numbers: seq<nat>, values: seq<seq<Payload>>, i: nat, data: Text)
    requires |numbers| == |values| && i < |numbers| && Bytes(data) in values[i]
    ensures |data| <= |MessageBytes(numbers, values)|
  {
    InFieldsOf(numbers, values, Field(numbers[i], Bytes(data)));
    FieldFits(FieldsOf(numbers, values), Field(numbers[i], Bytes(data)));
  }

  lemma {:induction false} FieldFits(fields: seq<Field>, f: Field)
    requires f in fields
    ensures |FieldBytes(f)| <= |Encode(fields)|
  {
    if f != fields[0] { FieldFits(fields[1..], f); }
  }

  lemma Regroup(a: Text, b: Text, c: Text, d: Text)
    ensures a + b + c + d == a + (b + (c + d))
  {
  }

  /** The byte vector every encoder appends to. The slots put so far are recorded beside it. */
  class ByteSink {
    var out: Text
    ghost var numbers: seq<nat>
    ghost var values: seq<seq<Payload>>

    ghost predicate Valid()
      reads this
    {
      |numbers| == |values| && out == MessageBytes(numbers, values)
    }

    constructor ()
      ensures Valid() && numbers == [] && values == []
    {
      out, numbers, values := [], [], [];
    }

    method PutVarint(value: nat)
      modifies `out
      ensures out == old(out) + VarintBytes(value)
    {
      var v := value;
      while v >= 0x80
        invariant out + VarintBytes(v) == old(out) + VarintBytes(value)
        decreases v
      {
        out := out + [v % 0x80 + 0x80];
        v := v / 0x80;
      }
      out := out + [v];
    }

    method PutKey(number: nat, wireType: nat)
      modifies `out
      ensures out == old(out) + VarintBytes(number * 8 + wireType)
    {
      PutVarint(number * 8 + wireType);
    }

    method PutNumber(number: nat, value: nat)
      requires Valid()
      modifies this
      ensures Valid() && numbers == old(numbers) + [number] && values == old(values) + [[Varint(value)]]
    {
      hide MessageBytes, VarintBytes;
      PutKey(number, 0);
      PutVarint(value);
      Record(number, Varint(value));
    }

    method PutDouble(number: nat, value: Double)
      requires Valid()
      modifies this
      ensures Valid() && numbers == old(numbers) + [number] && values == old(values) + [[Fixed64(value)]]
    {
      hide MessageBytes, VarintBytes;
      PutKey(number, 1);
      out := out + value;
      Record(number, Fixed64(value));
    }

    method PutRawBytes(number: nat, value: Text)
      modifies `out
      ensures out == old(out) + FieldBytes(Field(number, Bytes(value)))
    {
      hide MessageBytes, VarintBytes;
      PutKey(number, 2);
      PutVarint(|value|);
      out := out + value;
      Regroup(old(out), VarintBytes(number * 8 + 2), VarintBytes(|value|), value);
    }

    method PutBytes(number: nat, value: Text)
      requires Valid()
      modifies this
      ensures Valid() && numbers == old(numbers) + [number] && values == old(values) + [[Bytes(value)]]
    {
      PutRawBytes(number, value);
      Record(number, Bytes(value));
    }

    /** One more value of the repeated field last begun. */
    method PutRepeated(number: nat, value: Text)
      requires Valid() && numbers != [] && numbers[|numbers| - 1] == number
      modifies this
      ensures Valid() && numbers == old(numbers)
      ensures values == old(values)[..|old(values)| - 1] + [old(values)[|old(values)| - 1] + [Bytes(value)]]
    {
      PutRawBytes(number, value);
      ghost var n := |numbers| - 1;
      SlotGrows(numbers[..n], values[..n], number, values[n], Bytes(value));
      values := values[..n] + [values[n] + [Bytes(value)]];
      assert numbers == numbers[..n] + [number];
      assert old(values) == old(values)[..n] + [old(values)[n]];
    }

    /** A field that is absent, or not yet repeated, still has its place. */
    ghost method Skip(number: nat)
      requires Valid()
      modifies `numbers, `values
      ensures Valid() && numbers == old(numbers) + [number] && values == old(values) + [[]]
    {
      FieldsOfSnoc(numbers, values, number, []);
      assert FieldsOf(numbers, values) + SlotFields(number, []) == FieldsOf(numbers, values);
      numbers, values := numbers + [number], values + [[]];
    }

    ghost method Record(number: nat, p: Payload)
      requires |numbers| == |values| && out == MessageBytes(numbers, values) + FieldBytes(Field(number, p))
      modifies `numbers, `values
      ensures Valid() && numbers == old(numbers) + [number] && values == old(values) + [[p]]
    {
      hide FieldBytes, MessageBytes;
      NewSlot(numbers, values, number, p);
      numbers, values := numbers + [number], values + [[p]];
    }
  }

  lemma OneField(f: Field)
    ensures Encode([f]) == FieldBytes(f)
  {
    hide FieldBytes;
    assert [f][1..] == [] && Encode([]) == [];
  }

  lemma NewSlot(numbers: seq<nat>, values: seq<seq<Payload>>, number: nat, p: Payload)
    requires |numbers| == |values|
    ensures MessageBytes(numbers + [number], values + [[p]]) == MessageBytes(numbers, values) + FieldBytes(Field(number, p))
  {
    hide Encode, FieldBytes, FieldsOf;
    FieldsOfSnoc(numbers, values, number, [p]);
    assert SlotFields(number, [p]) == [Field(number, p)];
    EncodeConcat(FieldsOf(numbers, values), [Field(number, p)]);
    OneField(Field(number, p));
  }

  lemma FieldsOfSnoc(numbers: seq<nat>, values: seq<seq<Payload>>, number: nat, slot: seq<Payload>)
    requires |numbers| == |values|
    ensures FieldsOf(numbers + [number], values + [slot]) == FieldsOf(numbers, values) + SlotFields(number, slot)
  {
    assert (numbers + [number])[..|numbers|] == numbers && (values + [slot])[..|values|] == values;
  }

  lemma SlotGrows(numbers: seq<nat>, values: seq<seq<Payload>>, number: nat, slot: seq<Payload>, p: Payload)
    requires |numbers| == |values|
    ensures MessageBytes(numbers + [number], values + [slot + [p]])
         == MessageBytes(numbers + [number], values + [slot]) + FieldBytes(Field(number, p))
  {
    hide Encode, FieldBytes, FieldsOf;
    FieldsOfSnoc(numbers, values, number, slot);
    FieldsOfSnoc(numbers, values, number, slot + [p]);
    var before := FieldsOf(numbers, values) + SlotFields(number, slot);
    assert FieldsOf(numbers, values) + SlotFields(number, slot + [p]) == before + [Field(number, p)];
    EncodeConcat(before, [Field(number, p)]);
    OneField(Field(number, p));
  }
}
