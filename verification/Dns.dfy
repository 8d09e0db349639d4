/**
 The agent's DNS messages: the query it builds, and the answer it reads, as sections 4.1.1 to
 4.1.4 and 3.3.14 of RFC 1035 lay them out. Turning bytes into text is a parameter.
 */
module Dns {
  import opened Strings
  import T = Telemetry
  import opened Wrappers

  type Bytes = T.Text

  const DOT: T.byte := 0x2E
  const TXT := 16
  const INTERNET := 1
  const HEADER_SIZE := 12

  type u16 = n: int | 0 <= n < 0x1_0000

  function BigEndian(n: u16): Bytes { [n / 0x100, n % 0x100] }

  function U16At(packet: Bytes, offset: nat): u16
    requires offset + 2 <= |packet|
  {
    var high: int, low: int := packet[offset], packet[offset + 1];
    high * 0x100 + low
  }

  // ----- The query -----

  predicate GoodLabel(l: Bytes) { 1 <= |l| <= 63 }

  predicate GoodLabels(labels: seq<Bytes>) { forall i :: 0 <= i < |labels| ==> GoodLabel(labels[i]) }

  function LabelsBytes(labels: seq<Bytes>): Bytes
    requires GoodLabels(labels)
  {
    if labels == [] then []
    else LabelsBytes(labels[..|labels| - 1]) + [|labels[|labels| - 1]|] + labels[|labels| - 1]
  }

  /** The end of an owner name: the root, or a pointer to where the rest stands. */
  datatype NameEnd = Root | Pointer(high: T.byte, low: T.byte)

  datatype Name = Name(labels: seq<Bytes>, end: NameEnd)

  predicate GoodName(name: Name) {
    GoodLabels(name.labels) && (name.end.Pointer? ==> name.end.high >= 0xC0)
  }

  function EndBytes(end: NameEnd): Bytes {
    match end
    case Root => [0]
    case Pointer(high, low) => [high, low]
  }

  function NameBytes(name: Name): Bytes
    requires GoodName(name)
  {
    LabelsBytes(name.labels) + EndBytes(name.end)
  }

  datatype Question = Question(name: Name, kind: u16, class_: u16)

  function QuestionBytes(q: Question): Bytes
    requires GoodName(q.name)
  {
    NameBytes(q.name) + (BigEndian(q.kind) + BigEndian(q.class_))
  }

  function HeaderBytes(id: u16, flags: Bytes, questions: u16, answers: u16, others: Bytes): Bytes {
    BigEndian(id) + flags + BigEndian(questions) + BigEndian(answers) + others
  }

  /** One question for the name's text records, recursion desired. */
  function QueryBytes(labels: seq<Bytes>, id: u16): Bytes
    requires GoodLabels(labels)
  {
    HeaderBytes(id, [1, 0], 1, 0, [0, 0, 0, 0]) + QuestionBytes(Question(Name(labels, Root), TXT, INTERNET))
  }

  lemma NextLabel(header: Bytes, labels: seq<Bytes>, i: nat)
    requires i < |labels| && GoodLabels(labels[..i]) && GoodLabel(labels[i])
    ensures GoodLabels(labels[..i + 1])
    ensures header + LabelsBytes(labels[..i + 1]) == header + LabelsBytes(labels[..i]) + [|labels[i]|] + labels[i]
  {
    assert labels[..i + 1][..i] == labels[..i];
    assert labels[..i + 1] == labels[..i] + [labels[i]];
  }

  method BuildQuery(name: Bytes, id: u16) returns (packet: Option<Bytes>)
    ensures packet.Some? <==> GoodLabels(Split(name, DOT))
    ensures packet.Some? ==> packet.value == QueryBytes(Split(name, DOT), id)
  {
    hide LabelsBytes;
    var out := BigEndian(id);
    out := out + [1, 0];
    out := out + BigEndian(1);
    out := out + BigEndian(0);
    out := out + BigEndian(0) + BigEndian(0);
    assert out == HeaderBytes(id, [1, 0], 1, 0, [0, 0, 0, 0]);
    var labels := Split(name, DOT);
    var encoded := PutLabels(out, labels);
    if encoded.None? {
      return None;
    }
    out := encoded.value + [0];
    out := out + BigEndian(TXT);
    out := out + BigEndian(INTERNET);
    return Some(out);
  }

  method PutLabels(header: Bytes, labels: seq<Bytes>) returns (packet: Option<Bytes>)
    ensures packet.Some? <==> GoodLabels(labels)
    ensures packet.Some? ==> packet.value == header + LabelsBytes(labels)
  {
    hide LabelsBytes;
    var out := header;
    assert LabelsBytes(labels[..0]) == [] by { NoLabels(labels[..0]); }
    for i := 0 to |labels|
      invariant GoodLabels(labels[..i])
      invariant out == header + LabelsBytes(labels[..i])
    {
      if labels[i] == [] || |labels[i]| > 63 {
        return None;
      }
      NextLabel(header, labels, i);
      out := out + [|labels[i]|];
      out := out + labels[i];
    }
    assert labels[..|labels|] == labels;
    return Some(out);
  }

  lemma NoLabels(labels: seq<Bytes>)
    requires labels == []
    ensures LabelsBytes(labels) == []
  {
  }

  // ----- Skipping a name -----

  function SkipFrom(packet: Bytes, offset: nat): (after: Option<nat>)
    ensures after.Some? ==> offset < after.value <= |packet| + 1
    decreases |packet| - offset
  {
    if offset >= |packet| then None
    else if packet[offset] == 0 then Some(offset + 1)
    else if packet[offset] >= 0xC0 then Some(offset + 2)
    else if offset + 1 + packet[offset] > |packet| then None
    else SkipFrom(packet, offset + 1 + packet[offset])
  }

  method SkipName(packet: Bytes, start: nat) returns (after: Option<nat>)
    ensures after == SkipFrom(packet, start)
  {
    var offset := start;
    while true
      invariant SkipFrom(packet, offset) == SkipFrom(packet, start)
      decreases |packet| - offset
    {
      if offset >= |packet| {
        return None;
      }
      var length := packet[offset];
      if length == 0 {
        return Some(offset + 1);
      }
      if length / 0x40 == 3 {
        return Some(offset + 2);
      }
      offset := offset + 1 + length;
      if offset > |packet| {
        return None;
      }
    }
  }

  lemma SkipOne(packet: Bytes, at: nat, n: nat)
    requires at < |packet| && packet[at] == n && 1 <= n <= 63 && at + 1 + n <= |packet|
    ensures SkipFrom(packet, at) == SkipFrom(packet, at + 1 + n)
  {
  }

  /** At `at` the packet holds these labels. */
  predicate HoldsLabels(packet: Bytes, at: nat, labels: seq<Bytes>) {
    GoodLabels(labels) && at + |LabelsBytes(labels)| <= |packet|
    && packet[at..at + |LabelsBytes(labels)|] == LabelsBytes(labels)
  }

  lemma LastLabel(packet: Bytes, at: nat, labels: seq<Bytes>)
    requires labels != [] && HoldsLabels(packet, at, labels)
    ensures var init, n := labels[..|labels| - 1], |labels[|labels| - 1]|;
            && HoldsLabels(packet, at, init)
            && var last := at + |LabelsBytes(init)|;
            && at + |LabelsBytes(labels)| == last + 1 + n <= |packet| && packet[last] == n && 1 <= n <= 63
  {
    var init, last := labels[..|labels| - 1], labels[|labels| - 1];
    var before := LabelsBytes(init);
    assert LabelsBytes(labels) == before + [|last|] + last;
    assert packet[at..at + |before|] == LabelsBytes(labels)[..|before|];
    assert packet[at + |before|] == LabelsBytes(labels)[|before|];
  }

  lemma {:induction false} SkipLabels(packet: Bytes, at: nat, labels: seq<Bytes>)
    requires HoldsLabels(packet, at, labels)
    ensures SkipFrom(packet, at) == SkipFrom(packet, at + |LabelsBytes(labels)|)
  {
    if labels == [] {
    } else {
      hide LabelsBytes, SkipFrom;
      var init := labels[..|labels| - 1];
      LastLabel(packet, at, labels);
      SkipLabels(packet, at, init);
      SkipOne(packet, at + |LabelsBytes(init)|, |labels[|labels| - 1]|);
    }
  }

  /** Skipping a name lands right behind it, whether it ends in the root or in a pointer. */
  lemma SkipsName(before: Bytes, name: Name, rest: Bytes)
    requires GoodName(name)
    ensures SkipFrom(before + NameBytes(name) + rest, |before|) == Some(|before| + |NameBytes(name)|)
  {
    var packet := before + NameBytes(name) + rest;
    assert packet == before + LabelsBytes(name.labels) + (EndBytes(name.end) + rest);
    SkipLabels(packet, |before|, name.labels);
    assert packet[|before| + |LabelsBytes(name.labels)|] == EndBytes(name.end)[0];
  }

  /** Skipping the name of a built query leaves exactly the question's type and class. */
  lemma SkipsBuiltName(labels: seq<Bytes>, id: u16)
    requires GoodLabels(labels)
    ensures SkipFrom(QueryBytes(labels, id), HEADER_SIZE) == Some(|QueryBytes(labels, id)| - 4)
    ensures QueryBytes(labels, id)[|QueryBytes(labels, id)| - 4..] == BigEndian(TXT) + BigEndian(INTERNET)
  {
    var header := HeaderBytes(id, [1, 0], 1, 0, [0, 0, 0, 0]);
    var name := Name(labels, Root);
    assert QueryBytes(labels, id) == header + NameBytes(name) + (BigEndian(TXT) + BigEndian(INTERNET));
    SkipsName(header, name, BigEndian(TXT) + BigEndian(INTERNET));
  }

  // ----- The number in a text -----

  const U32_MAX: nat := 0xFFFF_FFFF

  /** The number before the first bar, if it is a positive 32-bit number. */
  function AsnField(text: string): Option<nat> {
    match ParseUnsigned(Trim(Split(text, '|')[0], IsWhitespace), U32_MAX)
    case Some(value) => if value > 0 then Some(value) else None
    case None => None
  }

  /** Digits, with white space around them, up to the first bar or the end: their number, if it is positive and 32 bits hold it. */
  lemma AsnFieldReads(front: string, digits: string, back: string, rest: string)
    requires AllDigits(digits) && (forall c <- front + back :: IsWhitespace(c)) && (rest == [] || rest[0] == '|')
    ensures AsnField(front + digits + back + rest)
         == if 0 < DigitsValue(digits) < 0x1_0000_0000 then Some(DigitsValue(digits)) else None
  {
    hide Split, Trim;
    var field := front + digits + back;
    forall c | c in field ensures c != '|' {
      if c in front { assert c in front + back; }
      if c in back { assert c in front + back; }
    }
    if rest == [] {
      SplitWord(field, '|');
      assert field + rest == field;
    } else {
      SplitAfter(field, rest[1..], '|');
      assert field + rest == field + ['|'] + rest[1..];
    }
    assert forall c <- front :: c in front + back;
    assert forall c <- back :: c in front + back;
    TrimPadded(front, digits, back, IsWhitespace);
  }

  /** The text of a record's data: its strings in turn, up to one that overruns the data. */
  function TextOf(data: Bytes, decode: Bytes -> string): string
    decreases |data|
  {
    if data == [] || 1 + data[0] > |data| then ""
    else decode(data[1..1 + data[0]]) + TextOf(data[1 + data[0]..], decode)
  }

  predicate GoodStrings(strings: seq<Bytes>) { forall i :: 0 <= i < |strings| ==> |strings[i]| <= 255 }

  function StringsBytes(strings: seq<Bytes>): Bytes
    requires GoodStrings(strings)
  {
    if strings == [] then [] else [|strings[0]|] + strings[0] + StringsBytes(strings[1..])
  }

  function TextOfStrings(strings: seq<Bytes>, decode: Bytes -> string): string {
    if strings == [] then "" else decode(strings[0]) + TextOfStrings(strings[1..], decode)
  }

  /** Well-formed text data reads as the concatenation of its strings. */
  lemma {:induction false} TextRoundTrip(strings: seq<Bytes>, decode: Bytes -> string)
    requires GoodStrings(strings)
    ensures TextOf(StringsBytes(strings), decode) == TextOfStrings(strings, decode)
    decreases |strings|
  {
    if strings == [] {
    } else {
      var data := StringsBytes(strings);
      TextRoundTrip(strings[1..], decode);
      assert data[1..1 + data[0]] == strings[0] && data[1 + data[0]..] == StringsBytes(strings[1..]);
    }
  }

  lemma SliceOfSlice(s: Bytes, from: nat, end: nat, a: nat, b: nat)
    requires from <= end <= |s| && a <= b <= end - from
    ensures s[from..end][a..b] == s[from + a..from + b]
  {
    var part := s[from..end];
    assert forall i :: a <= i < b ==> part[i] == s[from + i];
  }

  lemma TextStep(packet: Bytes, at: nat, end: nat, decode: Bytes -> string)
    requires at < end <= |packet|
    ensures var after := at + 1 + packet[at];
            (TextOf(packet[at..end], decode)
             == if after > end then "" else decode(packet[at + 1..after]) + TextOf(packet[after..end], decode))
  {
    var data := packet[at..end];
    var length: nat := packet[at];
    assert data[0] == length;
    if at + 1 + length <= end {
      SliceOfSlice(packet, at, end, 1, 1 + length);
      SliceOfSlice(packet, at, end, 1 + length, |data|);
    }
  }

  lemma NoText(packet: Bytes, end: nat, decode: Bytes -> string)
    requires end <= |packet|
    ensures TextOf(packet[end..end], decode) == ""
  {
  }

  method ReadText(packet: Bytes, start: nat, end: nat, decode: Bytes -> string) returns (text: string)
    requires start <= end <= |packet|
    ensures text == TextOf(packet[start..end], decode)
  {
    hide TextOf;
    assert TextOf(packet[end..end], decode) == "" by { NoText(packet, end, decode); }
    text := "";
    var cursor := start;
    while cursor < end
      invariant start <= cursor <= end
      invariant TextOf(packet[start..end], decode) == text + TextOf(packet[cursor..end], decode)
    {
      TextStep(packet, cursor, end, decode);
      var length := packet[cursor];
      cursor := cursor + 1;
      if cursor + length > end {
        break;
      }
      text := text + decode(packet[cursor..cursor + length]);
      cursor := cursor + length;
    }
  }

  // ----- The answer -----

  function SkipQuestions(packet: Bytes, offset: nat, count: nat): (after: Option<nat>)
    ensures after.Some? && count > 0 ==> after.value <= |packet|
    decreases count
  {
    if count == 0 then Some(offset)
    else
      match SkipFrom(packet, offset)
      case None => None
      case Some(after) => if after + 4 > |packet| then None else SkipQuestions(packet, after + 4, count - 1)
  }

  /** What one answer record holds: its type and data, and where it ends. */
  datatype Seen = Seen(kind: u16, data: Bytes, end: nat)

  function SeeRecord(packet: Bytes, offset: nat): (seen: Option<Seen>)
    ensures seen.Some? ==> seen.value.end <= |packet|
  {
    match SkipFrom(packet, offset)
    case None => None
    case Some(at) =>
      if at + 10 > |packet| then None
      else
        var end := at + 10 + U16At(packet, at + 8);
        if end > |packet| then None else Some(Seen(U16At(packet, at), packet[at + 10..end], end))
  }

  function ScanAnswers(packet: Bytes, offset: nat, count: nat, decode: Bytes -> string): Option<nat>
    decreases count
  {
    if count == 0 then None
    else
      match SeeRecord(packet, offset)
      case None => None
      case Some(seen) =>
        if seen.kind == TXT && AsnField(TextOf(seen.data, decode)).Some?
        then AsnField(TextOf(seen.data, decode))
        else ScanAnswers(packet, seen.end, count - 1, decode)
  }

  function TxtAsn(packet: Bytes, expectedId: u16, decode: Bytes -> string): Option<nat> {
    if |packet| < HEADER_SIZE || U16At(packet, 0) != expectedId || packet[2] < 0x80 then None
    else
      match SkipQuestions(packet, HEADER_SIZE, U16At(packet, 4))
      case None => None
      case Some(offset) => ScanAnswers(packet, offset, U16At(packet, 6), decode)
  }

  /** Every index is in bounds and every loop ends, whatever the bytes. */
  method ParseTxtAsn(packet: Bytes, expectedId: u16, decode: Bytes -> string) returns (asn: Option<nat>)
    ensures asn == TxtAsn(packet, expectedId, decode)
  {
    hide AsnField, SkipFrom, TextOf, U16At;
    if |packet| < 12 {
      return None;
    }
    var id := U16At(packet, 0);
    if id != expectedId || packet[2] / 0x80 == 0 {
      return None;
    }
    var questions, answers := U16At(packet, 4), U16At(packet, 6);
    var offset: nat := 12;
    for i := 0 to questions
      invariant SkipQuestions(packet, HEADER_SIZE, questions) == SkipQuestions(packet, offset, questions - i)
    {
      var after := SkipName(packet, offset);
      if after.None? {
        return None;
      }
      offset := after.value + 4;
      if offset > |packet| {
        return None;
      }
    }
    assert TxtAsn(packet, expectedId, decode) == ScanAnswers(packet, offset, answers, decode);
    hide SkipQuestions, TxtAsn;
    for i := 0 to answers
      invariant TxtAsn(packet, expectedId, decode) == ScanAnswers(packet, offset, answers - i, decode)
    {
      var after := SkipName(packet, offset);
      if after.None? {
        return None;
      }
      offset := after.value;
      if offset + 10 > |packet| {
        return None;
      }
      var recordType, rdlength := U16At(packet, offset), U16At(packet, offset + 8);
      offset := offset + 10;
      if offset + rdlength > |packet| {
        return None;
      }
      if recordType == 16 {
        var text := ReadText(packet, offset, offset + rdlength, decode);
        if AsnField(text).Some? {
          return AsnField(text);
        }
      }
      offset := offset + rdlength;
    }
    return None;
  }

  // ----- Well-formed responses -----

  datatype Record = Record(name: Name, kind: u16, class_: u16, ttl: Bytes, data: Bytes)

  predicate GoodRecord(r: Record) { GoodName(r.name) && |r.ttl| == 4 && |r.data| < 0x1_0000 }

  function RecordBytes(r: Record): Bytes
    requires GoodRecord(r)
  {
    NameBytes(r.name) + (BigEndian(r.kind) + BigEndian(r.class_) + r.ttl + BigEndian(|r.data|) + r.data)
  }

  /** `others` are the counts, and `rest` the records, of the sections behind the answers. */
  datatype Response = Response(
    id: u16, flags: Bytes, questions: seq<Question>, answers: seq<Record>, others: Bytes, rest: Bytes)

  predicate GoodResponse(r: Response) {
    && |r.flags| == 2 && |r.others| == 4
    && |r.questions| < 0x1_0000 && |r.answers| < 0x1_0000
    && (forall i :: 0 <= i < |r.questions| ==> GoodName(r.questions[i].name))
    && (forall i :: 0 <= i < |r.answers| ==> GoodRecord(r.answers[i]))
  }

  function QuestionsBytes(questions: seq<Question>): Bytes
    requires forall i :: 0 <= i < |questions| ==> GoodName(questions[i].name)
  {
    if questions == [] then [] else QuestionBytes(questions[0]) + QuestionsBytes(questions[1..])
  }

  function RecordsBytes(records: seq<Record>): Bytes
    requires forall i :: 0 <= i < |records| ==> GoodRecord(records[i])
  {
    if records == [] then [] else RecordBytes(records[0]) + RecordsBytes(records[1..])
  }

  function ResponseBytes(r: Response): Bytes
    requires GoodResponse(r)
  {
    HeaderBytes(r.id, r.flags, |r.questions|, |r.answers|, r.others)
    + QuestionsBytes(r.questions) + (RecordsBytes(r.answers) + r.rest)
  }

  /** The number of the first text answer that has one. */
  function FirstAsn(records: seq<Record>, decode: Bytes -> string): Option<nat> {
    if records == [] then None
    else if records[0].kind == TXT && AsnField(TextOf(records[0].data, decode)).Some?
    then AsnField(TextOf(records[0].data, decode))
    else FirstAsn(records[1..], decode)
  }

  lemma {:induction false} SkipsQuestions(before: Bytes, questions: seq<Question>, rest: Bytes)
    requires forall i :: 0 <= i < |questions| ==> GoodName(questions[i].name)
    ensures SkipQuestions(before + QuestionsBytes(questions) + rest, |before|, |questions|)
         == Some(|before| + |QuestionsBytes(questions)|)
    decreases |questions|
  {
    hide EndBytes, LabelsBytes, NameBytes, SkipFrom;
    if questions == [] {
    } else {
      var q := questions[0];
      var packet := before + QuestionsBytes(questions) + rest;
      var fields := BigEndian(q.kind) + BigEndian(q.class_);
      assert packet == before + NameBytes(q.name) + (fields + QuestionsBytes(questions[1..]) + rest);
      SkipsName(before, q.name, fields + QuestionsBytes(questions[1..]) + rest);
      assert packet == (before + QuestionBytes(q)) + QuestionsBytes(questions[1..]) + rest;
      SkipsQuestions(before + QuestionBytes(q), questions[1..], rest);
    }
  }

  lemma SeesRecord(before: Bytes, r: Record, rest: Bytes)
    requires GoodRecord(r)
    ensures SeeRecord(before + RecordBytes(r) + rest, |before|) == Some(Seen(r.kind, r.data, |before| + |RecordBytes(r)|))
  {
    var packet := before + RecordBytes(r) + rest;
    var fields := BigEndian(r.kind) + BigEndian(r.class_) + r.ttl + BigEndian(|r.data|) + r.data;
    assert packet == before + NameBytes(r.name) + (fields + rest);
    SkipsName(before, r.name, fields + rest);
    var at := |before| + |NameBytes(r.name)|;
    assert packet[at..at + |fields|] == fields;
    FieldsAt(packet, at, r);
  }

  lemma BigEndianAt(packet: Bytes, at: nat, n: u16)
    requires at + 2 <= |packet| && packet[at] == n / 0x100 && packet[at + 1] == n % 0x100
    ensures U16At(packet, at) == n
  {
  }

  lemma FieldsAt(packet: Bytes, at: nat, r: Record)
    requires GoodRecord(r)
    requires var fields := BigEndian(r.kind) + BigEndian(r.class_) + r.ttl + BigEndian(|r.data|) + r.data;
             at + |fields| <= |packet| && packet[at..at + |fields|] == fields
    ensures at + 10 + |r.data| <= |packet|
    ensures U16At(packet, at) == r.kind && U16At(packet, at + 8) == |r.data|
    ensures packet[at + 10..at + 10 + |r.data|] == r.data
  {
    var fields := BigEndian(r.kind) + BigEndian(r.class_) + r.ttl + BigEndian(|r.data|) + r.data;
    assert |fields| == 10 + |r.data|;
    assert forall i :: 0 <= i < |fields| ==> packet[at + i] == fields[i];
    BigEndianAt(packet, at, r.kind);
    BigEndianAt(packet, at + 8, |r.data|);
    assert packet[at + 10..at + 10 + |r.data|] == packet[at..at + |fields|][10..];
  }

  lemma {:induction false} ScansRecords(before: Bytes, records: seq<Record>, rest: Bytes, decode: Bytes -> string)
    requires forall i :: 0 <= i < |records| ==> GoodRecord(records[i])
    ensures ScanAnswers(before + RecordsBytes(records) + rest, |before|, |records|, decode) == FirstAsn(records, decode)
    decreases |records|
  {
    hide AsnField, GoodName, GoodRecord, RecordBytes, SeeRecord, TextOf;
    if records == [] {
    } else {
      var packet := before + RecordsBytes(records) + rest;
      assert packet == before + RecordBytes(records[0]) + (RecordsBytes(records[1..]) + rest);
      SeesRecord(before, records[0], RecordsBytes(records[1..]) + rest);
      assert packet == (before + RecordBytes(records[0])) + RecordsBytes(records[1..]) + rest;
      ScansRecords(before + RecordBytes(records[0]), records[1..], rest, decode);
    }
  }

  /**
   On any well-formed response, with names spelt out or compressed, the parser returns the
   number of the first text answer that has one, exactly when the message is an answer and its
   identifier the expected one.
   */
  lemma ParsesResponse(r: Response, expectedId: u16, decode: Bytes -> string)
    requires GoodResponse(r)
    ensures TxtAsn(ResponseBytes(r), expectedId, decode)
         == if r.id == expectedId && r.flags[0] >= 0x80 then FirstAsn(r.answers, decode) else None
  {
    hide GoodName, GoodRecord, QuestionsBytes, RecordsBytes, ScanAnswers, SkipQuestions;
    var packet := ResponseBytes(r);
    var header := HeaderBytes(r.id, r.flags, |r.questions|, |r.answers|, r.others);
    assert |header| == HEADER_SIZE && packet[..12] == header;
    HeaderAt(packet, r.id, r.flags, |r.questions|, |r.answers|, r.others);
    SkipsQuestions(header, r.questions, RecordsBytes(r.answers) + r.rest);
    ScansRecords(header + QuestionsBytes(r.questions), r.answers, r.rest, decode);
    Regroup(header, QuestionsBytes(r.questions), RecordsBytes(r.answers), r.rest);
  }

  lemma Regroup(a: Bytes, b: Bytes, c: Bytes, d: Bytes)
    ensures a + b + (c + d) == a + b + c + d
  {
  }

  lemma HeaderAt(packet: Bytes, id: u16, flags: Bytes, questions: u16, answers: u16, others: Bytes)
    requires |flags| == 2 && |others| == 4 && |packet| >= 12
    requires packet[..12] == HeaderBytes(id, flags, questions, answers, others)
    ensures U16At(packet, 0) == id && packet[2] == flags[0]
    ensures U16At(packet, 4) == questions && U16At(packet, 6) == answers
  {
    var header := HeaderBytes(id, flags, questions, answers, others);
    assert forall i :: 0 <= i < 12 ==> packet[i] == header[i];
  }
}
