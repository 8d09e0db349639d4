/**
 The Worker's decoder for the agent's reports, and what it recovers. A field given twice keeps
 its last value; unknown fields are skipped; a known field of the wrong wire type is an error.
 Records start from zero values, which also stand for fields the message leaves out.
 */
module TelemetryDecode {
  import opened PingSeries
  import opened Telemetry
  import opened TelemetryProto
  import opened Wire
  import opened Wrappers

  const MAX_FRAME_BYTES := 1_000_000

  /** The Worker's reader, and one that takes all that the wire format allows. */
  datatype Reader = Worker | Standard

  /** JavaScript numbers are exact up to 2^53 - 1. */
  function Limit(r: Reader): nat {
    match r
    case Worker => 0x1F_FFFF_FFFF_FFFF
    case Standard => U64_MAX
  }

  /** The exponent bits of a double are not all ones. */
  predicate Finite(d: Double) { !(d[7] % 0x80 == 0x7F && d[6] / 0x10 == 0xF) }

  /** The reader takes this value. */
  predicate Taken(r: Reader, p: Payload) {
    match p
    case Varint(value) => value <= Limit(r)
    case Fixed64(bits) => r.Worker? ==> Finite(bits)
    case Bytes(data) => |data| <= Limit(r)
    case Fixed32 => true
  }

  predicate AllTaken(r: Reader, values: seq<seq<Payload>>) {
    forall i :: 0 <= i < |values| ==> forall p <- values[i] :: Taken(r, p)
  }

  /** The values of the known fields, by field number. */
  function DecodeSlots(r: Reader, numbers: seq<nat>, bytes: Text): (slots: Result<seq<seq<Payload>>>)
    ensures slots.Ok? ==> |slots.value| == |numbers|
  {
    var fields :- Parse(bytes, Limit(r));
    var slots := Gather(numbers, fields);
    if AllTaken(r, slots) then Ok(slots) else Err
  }

  ghost predicate FieldNumbers(numbers: seq<nat>) {
    Distinct(numbers) && forall i :: 0 <= i < |numbers| ==> 1 <= numbers[i] < 0x2000_0000
  }

  /** Parsing an encoded message gives its fields, or stops at a value the reader does not take. */
  lemma ParseMessage(r: Reader, numbers: seq<nat>, values: seq<seq<Payload>>)
    requires |numbers| == |values| && FieldNumbers(numbers)
    ensures var parsed := Parse(MessageBytes(numbers, values), Limit(r));
            parsed == Ok(FieldsOf(numbers, values)) || (parsed == Err && !AllTaken(r, values))
  {
    var fields := FieldsOf(numbers, values);
    forall i | 0 <= i < |fields| ensures Emitted(fields[i]) {
      InFieldsOf(numbers, values, fields[i]);
    }
    if AllTaken(r, values) {
      forall i | 0 <= i < |fields| ensures NumberFits(fields[i], Limit(r)) {
        InFieldsOf(numbers, values, fields[i]);
      }
    }
    ParseEncoded(fields, Limit(r));
  }

  /** Reading the slots of an encoded message gives them back, exactly when the reader takes every value. */
  lemma SlotsTrip(r: Reader, numbers: seq<nat>, values: seq<seq<Payload>>)
    requires |numbers| == |values| && FieldNumbers(numbers)
    ensures DecodeSlots(r, numbers, MessageBytes(numbers, values)) == if AllTaken(r, values) then Ok(values) else Err
  {
    hide AllTaken, MessageBytes, Parse;
    ParseMessage(r, numbers, values);
    GatherFieldsOf(numbers, values);
  }

  /** The reader asks for the same numbers, each found at its place among those written. */
  ghost predicate InOrder(own: seq<nat>, numbers: seq<nat>, at: seq<nat>) {
    && |own| == |at|
    && (forall i :: 0 <= i < |own| ==> at[i] < |numbers| && own[i] == numbers[at[i]])
    && forall j :: 0 <= j < |numbers| ==> numbers[j] in own
  }

  function Reordered(values: seq<seq<Payload>>, at: seq<nat>): seq<seq<Payload>>
    requires forall i :: 0 <= i < |at| ==> at[i] < |values|
  {
    seq(|at|, i requires 0 <= i < |at| => values[at[i]])
  }

  /** A reader with an order of its own finds the same slots in it. */
  lemma OwnOrderTrip(r: Reader, own: seq<nat>, numbers: seq<nat>, values: seq<seq<Payload>>, at: seq<nat>)
    requires |numbers| == |values| && FieldNumbers(numbers) && InOrder(own, numbers, at)
    ensures DecodeSlots(r, own, MessageBytes(numbers, values))
         == if AllTaken(r, values) then Ok(Reordered(values, at)) else Err
  {
    hide AllTaken, MessageBytes, Parse;
    var fields := FieldsOf(numbers, values);
    forall i | 0 <= i < |own| ensures AllAt(fields, own[i]) == values[at[i]] {
      AllAtFieldsOf(numbers, values, own[i]);
    }
    assert Gather(own, fields) == Reordered(values, at);
    ReorderedTaken(r, own, numbers, values, at);
    ParseMessage(r, numbers, values);
  }

  lemma ReorderedTaken(r: Reader, own: seq<nat>, numbers: seq<nat>, values: seq<seq<Payload>>, at: seq<nat>)
    requires |numbers| == |values| && FieldNumbers(numbers) && InOrder(own, numbers, at)
    ensures AllTaken(r, Reordered(values, at)) <==> AllTaken(r, values)
  {
    hide Taken;
    forall j | 0 <= j < |numbers|
      ensures exists i :: 0 <= i < |own| && Reordered(values, at)[i] == values[j]
    {
      var i :| 0 <= i < |own| && own[i] == numbers[j];
      assert at[i] == j && Reordered(values, at)[i] == values[j];
    }
  }

  /** The Worker takes safe integers and finite doubles: those whose eleven exponent bits are not all ones. */
  lemma WorkerTakes(p: Payload)
    ensures Taken(Worker, p) <==>
            match p
            case Varint(value) => value <= 9_007_199_254_740_991
            case Bytes(data) => |data| <= 9_007_199_254_740_991
            case Fixed64(bits) => (bits[7] as int % 128) * 16 + bits[6] as int / 16 != 2047
            case Fixed32 => true
  {
  }

  /** The fields with one of these numbers. */
  function Known(fields: seq<Field>, numbers: seq<nat>): seq<Field> {
    if fields == [] then []
    else (if fields[0].number in numbers then [fields[0]] else []) + Known(fields[1..], numbers)
  }

  lemma AllAtCons(f: Field, rest: seq<Field>, number: nat)
    ensures AllAt([f] + rest, number) == (if f.number == number then [f.payload] else []) + AllAt(rest, number)
  {
    assert ([f] + rest)[1..] == rest;
  }

  lemma {:induction false} AllAtKnown(fields: seq<Field>, numbers: seq<nat>, number: nat)
    requires number in numbers
    ensures AllAt(Known(fields, numbers), number) == AllAt(fields, number)
  {
    if fields == [] {
    } else {
      hide AllAt;
      var first, rest := fields[0], fields[1..];
      AllAtKnown(rest, numbers, number);
      assert fields == [first] + rest && [] + Known(rest, numbers) == Known(rest, numbers);
      AllAtCons(first, rest, number);
      AllAtCons(first, Known(rest, numbers), number);
    }
  }

  lemma {:induction false} KnownAreFields(fields: seq<Field>, numbers: seq<nat>)
    ensures forall i :: 0 <= i < |Known(fields, numbers)| ==> Known(fields, numbers)[i] in fields
  {
    if fields == [] {
    } else {
      KnownAreFields(fields[1..], numbers);
    }
  }

  /** Fields that a later schema adds, anywhere in a message, change nothing of what is read of the known ones. */
  lemma {:induction false} UnknownFieldsIgnored(r: Reader, numbers: seq<nat>, fields: seq<Field>)
    requires AllEmitted(fields) && AllNumbersFit(fields, Limit(r))
    ensures DecodeSlots(r, numbers, Encode(fields)) == DecodeSlots(r, numbers, Encode(Known(fields, numbers)))
  {
    hide AllAt, Encode, Known, Parse;
    var known := Known(fields, numbers);
    KnownAreFields(fields, numbers);
    ParseEncoded(fields, Limit(r));
    ParseEncoded(known, Limit(r));
    forall i | 0 <= i < |numbers| ensures AllAt(known, numbers[i]) == AllAt(fields, numbers[i]) {
      AllAtKnown(fields, numbers, numbers[i]);
    }
    assert Gather(numbers, known) == Gather(numbers, fields);
  }

  // ----- The value of a slot -----

  type Slot = seq<Payload>

  const ZERO: Double := [0, 0, 0, 0, 0, 0, 0, 0]

  function LastOf<X>(items: seq<X>): Option<X> {
    if items == [] then None else Some(items[|items| - 1])
  }

  function OptNumberIn(slot: Slot): Result<Option<u64>> {
    if exists p <- slot :: !p.Varint? || p.value > U64_MAX then Err
    else if slot == [] then Ok(None)
    else Ok(Some(slot[|slot| - 1].value))
  }

  function OptDoubleIn(slot: Slot): Result<Option<Double>> {
    if exists p <- slot :: !p.Fixed64? then Err
    else if slot == [] then Ok(None)
    else Ok(Some(slot[|slot| - 1].bits))
  }

  function OptTextIn(slot: Slot): Result<Option<Text>> {
    if exists p <- slot :: !p.Bytes? then Err
    else if slot == [] then Ok(None)
    else Ok(Some(slot[|slot| - 1].data))
  }

  function OrElse<X>(value: Option<X>, other: X): X {
    match value
    case Some(x) => x
    case None => other
  }

  function NumberIn(slot: Slot): Result<u64> {
    var n :- OptNumberIn(slot);
    Ok(OrElse(n, 0))
  }

  function DoubleIn(slot: Slot): Result<Double> {
    var d :- OptDoubleIn(slot);
    Ok(OrElse(d, ZERO))
  }

  function TextIn(slot: Slot): Result<Text> {
    var t :- OptTextIn(slot);
    Ok(OrElse(t, []))
  }

  /** A time is a signed 64-bit number. */
  function TimeIn(slot: Slot): Result<i64> {
    var n :- NumberIn(slot);
    Ok(if n < 0x8000_0000_0000_0000 then n else n - 0x1_0000_0000_0000_0000)
  }

  function DecodeEach<X>(r: Reader, decode: (Reader, Text) -> Result<X>, slot: Slot): Result<seq<X>>
    decreases |slot|
  {
    if slot == [] then Ok([])
    else if !slot[0].Bytes? then Err
    else
      var first :- decode(r, slot[0].data);
      var rest :- DecodeEach(r, decode, slot[1..]);
      Ok([first] + rest)
  }

  ghost predicate AllOk<X(!new)>(r: Reader, items: seq<X>, ok: (Reader, X) -> bool) {
    forall i :: 0 <= i < |items| ==> ok(r, items[i])
  }

  /** Reading a repeated message is reading each of its elements. */
  lemma {:induction false} EachTrip<X(!new), Y>(r: Reader, items: seq<X>, encode: X -> Text, decode: (Reader, Text) -> Result<Y>,
      ok: (Reader, X) -> bool, results: seq<Y>)
    requires |results| == |items|
    requires forall i :: 0 <= i < |items| ==> decode(r, encode(items[i])) == if ok(r, items[i]) then Ok(results[i]) else Err
    ensures DecodeEach(r, decode, Many(items, encode)) == if AllOk(r, items, ok) then Ok(results) else Err
    decreases |items|
  {
    if items == [] {
    } else {
      EachTrip(r, items[1..], encode, decode, ok, results[1..]);
      assert Many(items, encode)[1..] == Many(items[1..], encode);
      assert items == [items[0]] + items[1..] && results == [results[0]] + results[1..];
    }
  }

  /** The last message of a slot. */
  function LastMessage<X>(r: Reader, decode: (Reader, Text) -> Result<X>, slot: Slot): Result<Option<X>> {
    var all :- DecodeEach(r, decode, slot);
    Ok(LastOf(all))
  }

  lemma LastTrip<X, Y>(r: Reader, x: X, encode: X -> Text, decode: (Reader, Text) -> Result<Y>,
      ok: (Reader, X) -> bool, result: Y)
    requires decode(r, encode(x)) == if ok(r, x) then Ok(result) else Err
    ensures LastMessage(r, decode, Byt(encode(x))) == if ok(r, x) then Ok(Some(result)) else Err
  {
    var slot := Byt(encode(x));
    assert slot[1..] == [] && DecodeEach(r, decode, slot[1..]) == Ok([]);
  }

  lemma NoMessage<X>(r: Reader, decode: (Reader, Text) -> Result<X>)
    ensures LastMessage(r, decode, []) == Ok(None)
  {
  }

  // ----- The numbers the Worker's decoder branches on -----

  const READ_REPORT: seq<nat> := [1, 2, 3, 4, 5, 6]
  const READ_METRICS: seq<nat> := [1, 2, 3, 4, 5, 6, 7, 8, 9, 10, 11, 12, 13, 14, 15]
  const READ_MEM: seq<nat> := [1, 2, 3, 4]
  const READ_SWAP: seq<nat> := [1, 2, 3]
  const READ_LOAD: seq<nat> := [1, 2, 3]
  const READ_DISK: seq<nat> := [1, 2, 3, 4]
  const READ_NET: seq<nat> := [1, 2, 3, 4, 5, 6]
  const READ_DISKIO: seq<nat> := [1, 2]
  const READ_AGG: seq<nat> := [1, 2, 3, 4, 5, 6, 7, 8, 9, 10]
  const READ_STAT: seq<nat> := [1, 2, 3]
  const READ_SAMPLE: seq<nat> := [1, 2, 3, 4, 5, 6, 7, 8, 9, 10, 11, 12, 13, 14, 15, 16, 17, 18, 19, 20]
  const READ_VPS: seq<nat> := [1, 2, 3, 4, 5, 6, 7, 8, 9, 10, 11, 12, 13, 14, 15, 16, 17, 18, 19, 20, 21]
  const READ_DISKENTRY: seq<nat> := [1, 2, 3, 4]
  const READ_SENSOR: seq<nat> := [1, 2, 3, 4]
  const READ_SERIES: seq<nat> := [1, 2, 3]
  const READ_POINT: seq<nat> := [1, 2, 3]
  const READ_PROXY: seq<nat> := [1, 2, 3, 4, 5, 6, 7, 8, 9, 10, 11]

  // ----- The small messages -----

  function DecodeSwap(r: Reader, bytes: Text): Result<SwapInfo> {
    var s :- DecodeSlots(r, READ_SWAP, bytes);
    var totalMb :- NumberIn(s[0]);
    var usedMb :- NumberIn(s[1]);
    var percent :- DoubleIn(s[2]);
    Ok(SwapInfo(totalMb, usedMb, percent))
  }

  ghost predicate SwapOk(r: Reader, x: SwapInfo) { AllTaken(r, SwapValues(x)) }

  lemma SwapTrip(r: Reader, x: SwapInfo)
    ensures DecodeSwap(r, SwapBytes(x)) == if SwapOk(r, x) then Ok(x) else Err
  {
    hide AllTaken, DecodeSlots, MessageBytes;
    assert READ_SWAP == SWAP_NUMBERS;
    SlotsTrip(r, SWAP_NUMBERS, SwapValues(x));
  }

  function DecodeLoad(r: Reader, bytes: Text): Result<LoadInfo> {
    var s :- DecodeSlots(r, READ_LOAD, bytes);
    var load1 :- DoubleIn(s[0]);
    var load5 :- DoubleIn(s[1]);
    var load15 :- DoubleIn(s[2]);
    Ok(LoadInfo(load1, load5, load15))
  }

  ghost predicate LoadOk(r: Reader, x: LoadInfo) { AllTaken(r, LoadValues(x)) }

  lemma LoadTrip(r: Reader, x: LoadInfo)
    ensures DecodeLoad(r, LoadBytes(x)) == if LoadOk(r, x) then Ok(x) else Err
  {
    hide AllTaken, DecodeSlots, MessageBytes;
    assert READ_LOAD == LOAD_NUMBERS;
    SlotsTrip(r, LOAD_NUMBERS, LoadValues(x));
  }

  function DecodeDisk(r: Reader, bytes: Text): Result<DiskInfo> {
    var s :- DecodeSlots(r, READ_DISK, bytes);
    var totalGb :- DoubleIn(s[0]);
    var usedGb :- DoubleIn(s[1]);
    var availGb :- DoubleIn(s[2]);
    var percent :- DoubleIn(s[3]);
    Ok(DiskInfo(totalGb, usedGb, availGb, percent))
  }

  ghost predicate DiskOk(r: Reader, x: DiskInfo) { AllTaken(r, DiskValues(x)) }

  lemma DiskTrip(r: Reader, x: DiskInfo)
    ensures DecodeDisk(r, DiskBytes(x)) == if DiskOk(r, x) then Ok(x) else Err
  {
    hide AllTaken, DecodeSlots, MessageBytes;
    assert READ_DISK == DISK_NUMBERS;
    SlotsTrip(r, DISK_NUMBERS, DiskValues(x));
  }

  function DecodeNet(r: Reader, bytes: Text): Result<NetInfo> {
    var s :- DecodeSlots(r, READ_NET, bytes);
    var rxBytesSec :- DoubleIn(s[0]);
    var txBytesSec :- DoubleIn(s[1]);
    var rxBytes :- NumberIn(s[2]);
    var txBytes :- NumberIn(s[3]);
    var tcpConns :- NumberIn(s[4]);
    var udpConns :- NumberIn(s[5]);
    Ok(NetInfo(rxBytesSec, txBytesSec, rxBytes, txBytes, tcpConns, udpConns))
  }

  ghost predicate NetOk(r: Reader, x: NetInfo) { AllTaken(r, NetValues(x)) }

  lemma NetTrip(r: Reader, x: NetInfo)
    ensures DecodeNet(r, NetBytes(x)) == if NetOk(r, x) then Ok(x) else Err
  {
    hide AllTaken, DecodeSlots, MessageBytes;
    assert READ_NET == NET_NUMBERS;
    SlotsTrip(r, NET_NUMBERS, NetValues(x));
  }

  function DecodeDiskIo(r: Reader, bytes: Text): Result<DiskIoInfo> {
    var s :- DecodeSlots(r, READ_DISKIO, bytes);
    var readBytesSec :- DoubleIn(s[0]);
    var writeBytesSec :- DoubleIn(s[1]);
    Ok(DiskIoInfo(readBytesSec, writeBytesSec))
  }

  ghost predicate DiskIoOk(r: Reader, x: DiskIoInfo) { AllTaken(r, DiskIoValues(x)) }

  lemma DiskIoTrip(r: Reader, x: DiskIoInfo)
    ensures DecodeDiskIo(r, DiskIoBytes(x)) == if DiskIoOk(r, x) then Ok(x) else Err
  {
    hide AllTaken, DecodeSlots, MessageBytes;
    assert READ_DISKIO == DISKIO_NUMBERS;
    SlotsTrip(r, DISKIO_NUMBERS, DiskIoValues(x));
  }

  function DecodeStat(r: Reader, bytes: Text): Result<Stats> {
    var s :- DecodeSlots(r, READ_STAT, bytes);
    var avg :- DoubleIn(s[0]);
    var max :- DoubleIn(s[1]);
    var min :- DoubleIn(s[2]);
    Ok(Stats(avg, max, min))
  }

  ghost predicate StatOk(r: Reader, x: Stats) { AllTaken(r, StatValues(x)) }

  lemma StatTrip(r: Reader, x: Stats)
    ensures DecodeStat(r, StatBytes(x)) == if StatOk(r, x) then Ok(x) else Err
  {
    hide AllTaken, DecodeSlots, MessageBytes;
    assert READ_STAT == STAT_NUMBERS;
    SlotsTrip(r, STAT_NUMBERS, StatValues(x));
  }

  function DecodeSensor(r: Reader, bytes: Text): Result<TemperatureSensor> {
    var s :- DecodeSlots(r, READ_SENSOR, bytes);
    var id :- TextIn(s[0]);
    var labelText :- TextIn(s[1]);
    var kind :- TextIn(s[2]);
    var tempC :- DoubleIn(s[3]);
    Ok(TemperatureSensor(id, labelText, kind, tempC))
  }

  ghost predicate SensorOk(r: Reader, x: TemperatureSensor) { AllTaken(r, SensorValues(x)) }

  lemma SensorTrip(r: Reader, x: TemperatureSensor)
    ensures DecodeSensor(r, SensorBytes(x)) == if SensorOk(r, x) then Ok(x) else Err
  {
    hide AllTaken, DecodeSlots, MessageBytes;
    assert READ_SENSOR == SENSOR_NUMBERS;
    SlotsTrip(r, SENSOR_NUMBERS, SensorValues(x));
  }

  function DecodeDiskEntry(r: Reader, bytes: Text): Result<DiskEntry> {
    var s :- DecodeSlots(r, READ_DISKENTRY, bytes);
    var device :- TextIn(s[0]);
    var mount :- TextIn(s[1]);
    var totalGb :- DoubleIn(s[2]);
    var usedGb :- DoubleIn(s[3]);
    Ok(DiskEntry(device, mount, totalGb, usedGb))
  }

  ghost predicate DiskEntryOk(r: Reader, x: DiskEntry) { AllTaken(r, DiskEntryValues(x)) }

  lemma DiskEntryTrip(r: Reader, x: DiskEntry)
    ensures DecodeDiskEntry(r, DiskEntryBytes(x)) == if DiskEntryOk(r, x) then Ok(x) else Err
  {
    hide AllTaken, DecodeSlots, MessageBytes;
    assert READ_DISKENTRY == DISKENTRY_NUMBERS;
    SlotsTrip(r, DISKENTRY_NUMBERS, DiskEntryValues(x));
  }

  function DecodeMem(r: Reader, bytes: Text): Result<MemInfo> {
    var s :- DecodeSlots(r, READ_MEM, bytes);
    var totalMb :- NumberIn(s[0]);
    var usedMb :- NumberIn(s[1]);
    var percent :- DoubleIn(s[2]);
    var swap :- LastMessage(r, DecodeSwap, s[3]);
    Ok(MemInfo(totalMb, usedMb, percent, swap))
  }

  ghost predicate MemOk(r: Reader, x: MemInfo) {
    AllTaken(r, MemValues(x)) && (x.swap.Some? ==> SwapOk(r, x.swap.value))
  }

  lemma {:induction false} MemTrip(r: Reader, x: MemInfo)
    ensures DecodeMem(r, MemBytes(x)) == if MemOk(r, x) then Ok(x) else Err
  {
    hide AllTaken, DecodeSlots, DecodeSwap, LastMessage, MessageBytes, SwapBytes, SwapOk;
    assert READ_MEM == MEM_NUMBERS;
    SlotsTrip(r, MEM_NUMBERS, MemValues(x));
    if x.swap.Some? {
      SwapTrip(r, x.swap.value);
      LastTrip(r, x.swap.value, SwapBytes, DecodeSwap, SwapOk, x.swap.value);
    } else {
      NoMessage(r, DecodeSwap);
    }
  }

  function DecodePoint(r: Reader, bytes: Text): Result<Point> {
    var s :- DecodeSlots(r, READ_POINT, bytes);
    var dt :- NumberIn(s[0]);
    var latencyMs :- OptDoubleIn(s[1]);
    var ok :- NumberIn(s[2]);
    Ok(Point(dt, latencyMs, ok == 1))
  }

  ghost predicate PointOk(r: Reader, x: Point) { AllTaken(r, PointValues(x)) }

  lemma PointTrip(r: Reader, x: Point)
    ensures DecodePoint(r, PointBytes(x)) == if PointOk(r, x) then Ok(x) else Err
  {
    hide AllTaken, DecodeSlots, MessageBytes;
    assert READ_POINT == POINT_NUMBERS;
    SlotsTrip(r, POINT_NUMBERS, PointValues(x));
  }

  function DecodeSeries(r: Reader, bytes: Text): Result<SentSeries> {
    var s :- DecodeSlots(r, READ_SERIES, bytes);
    var targetId :- TextIn(s[0]);
    var t0 :- NumberIn(s[1]);
    var points :- DecodeEach(r, DecodePoint, s[2]);
    Ok(SentSeries(targetId, t0, points))
  }

  ghost predicate SeriesOk(r: Reader, x: SentSeries) {
    AllTaken(r, SeriesValues(x)) && AllOk(r, x.points, PointOk)
  }

  lemma SeriesTrip(r: Reader, x: SentSeries)
    ensures DecodeSeries(r, SeriesBytes(x)) == if SeriesOk(r, x) then Ok(x) else Err
  {
    hide AllTaken, DecodeEach, DecodePoint, DecodeSlots, Many, MessageBytes, PointBytes, PointOk;
    assert READ_SERIES == SERIES_NUMBERS;
    SlotsTrip(r, SERIES_NUMBERS, SeriesValues(x));
    forall i | 0 <= i < |x.points| { PointTrip(r, x.points[i]); }
    EachTrip(r, x.points, PointBytes, DecodePoint, PointOk, x.points);
  }

  // ----- The large messages -----

  function SampleFrom(ts: Slot, cpu: Slot, mem: Slot, disk: Slot, load: Slot, netRx: Slot, netTx: Slot,
      tcpConns: Slot, udpConns: Slot, diskRead: Slot, diskWrite: Slot, cpuTemp: Slot, gpuTemp: Slot, gpuUtil: Slot,
      motherboardTemp: Slot, diskTemp: Slot, chipsetTemp: Slot, processCount: Slot, load5: Slot,
      load15: Slot): Result<SamplePoint>
  {
    var ts :- TimeIn(ts);
    var cpu :- DoubleIn(cpu);
    var mem :- DoubleIn(mem);
    var disk :- DoubleIn(disk);
    var load :- DoubleIn(load);
    var netRx :- DoubleIn(netRx);
    var netTx :- DoubleIn(netTx);
    var tcpConns :- NumberIn(tcpConns);
    var udpConns :- NumberIn(udpConns);
    var diskRead :- DoubleIn(diskRead);
    var diskWrite :- DoubleIn(diskWrite);
    var cpuTemp :- OptDoubleIn(cpuTemp);
    var gpuTemp :- OptDoubleIn(gpuTemp);
    var gpuUtil :- OptDoubleIn(gpuUtil);
    var motherboardTemp :- OptDoubleIn(motherboardTemp);
    var diskTemp :- OptDoubleIn(diskTemp);
    var chipsetTemp :- OptDoubleIn(chipsetTemp);
    var processCount :- NumberIn(processCount);
    var load5 :- DoubleIn(load5);
    var load15 :- DoubleIn(load15);
    Ok(SamplePoint(ts, cpu, mem, disk, load, load5, load15, processCount, netRx, netTx, tcpConns, udpConns, diskRead,
       diskWrite, cpuTemp, gpuTemp, gpuUtil, motherboardTemp, diskTemp, chipsetTemp))
  }

  function DecodeSample(r: Reader, bytes: Text): Result<SamplePoint> {
    var s :- DecodeSlots(r, READ_SAMPLE, bytes);
    SampleFrom(s[0], s[1], s[2], s[3], s[4], s[5], s[6], s[7], s[8], s[9], s[10], s[11], s[12], s[13], s[14], s[15],
      s[16], s[17], s[18], s[19])
  }

  /** A sample as it arrives: a negative time reads as 0. */
  function ReceivedSample(x: SamplePoint): SamplePoint { x.(ts := ReceivedTime(x.ts)) }

  function ReceivedTime(ts: i64): i64 { if ts < 0 then 0 else ts }

  ghost predicate SampleOk(r: Reader, x: SamplePoint) { AllTaken(r, SampleValues(x)) }

  const SAMPLE_LIST: seq<nat> := [1, 2, 3, 4, 5, 6, 7, 8, 18, 19, 20, 9, 10, 11, 12, 13, 14, 15, 16, 17]

  lemma SampleNumbersListed()
    ensures SAMPLE_NUMBERS == SAMPLE_LIST
  {
  }

  lemma SampleNumbers()
    ensures FieldNumbers(SAMPLE_LIST)
  {
  }

  /** Where the encoder writes the decoder's fields. */
  const SAMPLE_AT: seq<nat> := [0, 1, 2, 3, 4, 5, 6, 7, 11, 12, 13, 14, 15, 16, 17, 18, 19, 8, 9, 10]

  lemma SampleOrder()
    ensures InOrder(READ_SAMPLE, SAMPLE_LIST, SAMPLE_AT)
  {
    assert forall i :: 0 <= i < 20 ==> SAMPLE_AT[i] < 20 && READ_SAMPLE[i] == SAMPLE_LIST[SAMPLE_AT[i]];
    assert forall j :: 0 <= j < 20 ==> SAMPLE_LIST[j] in READ_SAMPLE;
  }

  function SampleList(x: SamplePoint): seq<seq<Payload>> {
    [Num(ClampTs(x.ts)), Dbl(x.cpu), Dbl(x.mem), Dbl(x.disk), Dbl(x.load), Dbl(x.netRx), Dbl(x.netTx),
     Num(x.tcpConns), Num(x.processCount), Dbl(x.load5), Dbl(x.load15), Num(x.udpConns), Dbl(x.diskRead),
     Dbl(x.diskWrite), OptDbl(x.cpuTemp), OptDbl(x.gpuTemp), OptDbl(x.gpuUtil), OptDbl(x.motherboardTemp),
     OptDbl(x.diskTemp), OptDbl(x.chipsetTemp)]
  }

  lemma SampleListed(x: SamplePoint)
    ensures SampleValues(x) == SampleList(x)
  {
    hide Num, Dbl, OptDbl, ClampTs;
  }

  lemma SampleFields(x: SamplePoint)
    ensures SampleFrom(Num(ClampTs(x.ts)), Dbl(x.cpu), Dbl(x.mem), Dbl(x.disk), Dbl(x.load), Dbl(x.netRx),
      Dbl(x.netTx), Num(x.tcpConns), Num(x.udpConns), Dbl(x.diskRead), Dbl(x.diskWrite), OptDbl(x.cpuTemp),
      OptDbl(x.gpuTemp), OptDbl(x.gpuUtil), OptDbl(x.motherboardTemp), OptDbl(x.diskTemp), OptDbl(x.chipsetTemp),
      Num(x.processCount), Dbl(x.load5), Dbl(x.load15))
         == Ok(ReceivedSample(x))
  {
  }

  /** The encoder's slots, in the order the decoder reads them. */
  lemma SampleReordered(x: SamplePoint)
    ensures var s := Reordered(SampleList(x), SAMPLE_AT);
            (SampleFrom(s[0], s[1], s[2], s[3], s[4], s[5], s[6], s[7], s[8], s[9], s[10], s[11], s[12], s[13], s[14],
               s[15], s[16], s[17], s[18], s[19])
             == Ok(ReceivedSample(x)))
  {
    hide Dbl, Num, OptDbl, SampleFrom;
    SampleFields(x);
  }

  lemma SampleTrip(r: Reader, x: SamplePoint)
    ensures DecodeSample(r, SampleBytes(x)) == if SampleOk(r, x) then Ok(ReceivedSample(x)) else Err
  {
    hide AllTaken, DecodeSlots, FieldNumbers, InOrder, MessageBytes, ReceivedSample, Reordered, SampleFrom,
         SampleValues;
    SampleNumbersListed();
    SampleNumbers();
    SampleListed(x);
    SampleOrder();
    OwnOrderTrip(r, READ_SAMPLE, SAMPLE_NUMBERS, SampleValues(x), SAMPLE_AT);
    SampleReordered(x);
  }

  function ProxyFrom(targetId: Slot, name: Slot, protocol: Slot, ts: Slot, latencyMs: Slot, ok: Slot, stage: Slot,
      error: Slot, handshakeMs: Slot, firstByteMs: Slot, totalMs: Slot): Result<ProxyCheckResult>
  {
    var targetId :- TextIn(targetId);
    var name :- TextIn(name);
    var protocol :- TextIn(protocol);
    var ts :- TimeIn(ts);
    var latencyMs :- OptDoubleIn(latencyMs);
    var ok :- NumberIn(ok);
    var stage :- TextIn(stage);
    var error :- OptTextIn(error);
    var handshakeMs :- OptNumberIn(handshakeMs);
    var firstByteMs :- OptNumberIn(firstByteMs);
    var totalMs :- OptNumberIn(totalMs);
    Ok(ProxyCheckResult(targetId, name, protocol, ts, latencyMs, handshakeMs, firstByteMs, totalMs, ok == 1, stage,
       error))
  }

  function DecodeProxy(r: Reader, bytes: Text): Result<ProxyCheckResult> {
    var s :- DecodeSlots(r, READ_PROXY, bytes);
    ProxyFrom(s[0], s[1], s[2], s[3], s[4], s[5], s[6], s[7], s[8], s[9], s[10])
  }

  function CapOpt(n: Option<nat>): Option<nat> {
    match n
    case Some(v) => Some(if v > 0xFFFF_FFFF_FFFF_FFFF then 0xFFFF_FFFF_FFFF_FFFF else v)
    case None => None
  }

  /** A proxy check as it arrives: a negative time reads as 0, a duration wider than 64 bits as the widest. */
  function ReceivedProxy(x: ProxyCheckResult): ProxyCheckResult {
    x.(ts := ReceivedTime(x.ts), handshakeMs := CapOpt(x.handshakeMs), firstByteMs := CapOpt(x.firstByteMs),
       totalMs := CapOpt(x.totalMs))
  }

  ghost predicate ProxyOk(r: Reader, x: ProxyCheckResult) { AllTaken(r, ProxyValues(x)) }

  lemma ProxyNumbersListed()
    ensures PROXY_NUMBERS == READ_PROXY
  {
  }

  lemma ProxyNumbers()
    ensures FieldNumbers(READ_PROXY)
  {
  }

  function ProxyList(x: ProxyCheckResult): seq<seq<Payload>> {
    [Byt(x.targetId), Byt(x.name), Byt(x.protocol), Num(ClampTs(x.ts)), OptDbl(x.latencyMs), Num(Flag(x.ok)),
     Byt(x.stage), OptByt(x.error), OptNum(x.handshakeMs), OptNum(x.firstByteMs), OptNum(x.totalMs)]
  }

  lemma ProxyListed(x: ProxyCheckResult)
    ensures ProxyValues(x) == ProxyList(x)
  {
  }

  lemma ProxyFields(x: ProxyCheckResult)
    ensures ProxyFrom(Byt(x.targetId), Byt(x.name), Byt(x.protocol), Num(ClampTs(x.ts)), OptDbl(x.latencyMs),
      Num(Flag(x.ok)), Byt(x.stage), OptByt(x.error), OptNum(x.handshakeMs), OptNum(x.firstByteMs), OptNum(x.totalMs))
         == Ok(ReceivedProxy(x))
  {
  }

  lemma ProxyTrip(r: Reader, x: ProxyCheckResult)
    ensures DecodeProxy(r, ProxyBytes(x)) == if ProxyOk(r, x) then Ok(ReceivedProxy(x)) else Err
  {
    ProxyNumbersListed();
    ProxyNumbers();
    ProxyListed(x);
    SlotsTrip(r, PROXY_NUMBERS, ProxyValues(x));
    ProxyFields(x);
  }

  const NO_STATS := Stats(ZERO, ZERO, ZERO)

  function StatIn(r: Reader, slot: Slot): Result<Stats> {
    var stats :- LastMessage(r, DecodeStat, slot);
    Ok(OrElse(stats, NO_STATS))
  }

  lemma StatInTrip(r: Reader, x: Stats)
    ensures StatIn(r, Byt(StatBytes(x))) == if StatOk(r, x) then Ok(x) else Err
  {
    StatTrip(r, x);
    LastTrip(r, x, StatBytes, DecodeStat, StatOk, x);
  }

  function AggFrom(r: Reader, cpu: Slot, mem: Slot, disk: Slot, load: Slot, netRx: Slot, netTx: Slot, tcpConns: Slot,
      udpConns: Slot, diskRead: Slot, diskWrite: Slot): Result<AggStats>
  {
    var cpu :- StatIn(r, cpu);
    var mem :- StatIn(r, mem);
    var disk :- StatIn(r, disk);
    var load :- StatIn(r, load);
    var netRx :- StatIn(r, netRx);
    var netTx :- StatIn(r, netTx);
    var tcpConns :- StatIn(r, tcpConns);
    var udpConns :- StatIn(r, udpConns);
    var diskRead :- StatIn(r, diskRead);
    var diskWrite :- StatIn(r, diskWrite);
    Ok(AggStats(cpu, mem, disk, load, netRx, netTx, tcpConns, udpConns, diskRead, diskWrite))
  }

  function DecodeAgg(r: Reader, bytes: Text): Result<AggStats> {
    var s :- DecodeSlots(r, READ_AGG, bytes);
    AggFrom(r, s[0], s[1], s[2], s[3], s[4], s[5], s[6], s[7], s[8], s[9])
  }

  ghost predicate AllStatsOk(r: Reader, x: AggStats) {
    && StatOk(r, x.cpu) && StatOk(r, x.mem) && StatOk(r, x.disk) && StatOk(r, x.load) && StatOk(r, x.netRx)
    && StatOk(r, x.netTx) && StatOk(r, x.tcpConns) && StatOk(r, x.udpConns) && StatOk(r, x.diskRead)
    && StatOk(r, x.diskWrite)
  }

  ghost predicate AggOk(r: Reader, x: AggStats) { AllTaken(r, AggValues(x)) && AllStatsOk(r, x) }

  lemma AggNumbersListed()
    ensures AGG_NUMBERS == READ_AGG
  {
  }

  lemma AggNumbers()
    ensures FieldNumbers(READ_AGG)
  {
  }

  function AggList(x: AggStats): seq<seq<Payload>> {
    [Byt(StatBytes(x.cpu)), Byt(StatBytes(x.mem)), Byt(StatBytes(x.disk)), Byt(StatBytes(x.load)),
     Byt(StatBytes(x.netRx)), Byt(StatBytes(x.netTx)), Byt(StatBytes(x.tcpConns)), Byt(StatBytes(x.udpConns)),
     Byt(StatBytes(x.diskRead)), Byt(StatBytes(x.diskWrite))]
  }

  lemma AggListed(x: AggStats)
    ensures AggValues(x) == AggList(x)
  {
    hide StatBytes, Byt;
  }

  lemma AggFields(r: Reader, x: AggStats)
    ensures AggFrom(r, Byt(StatBytes(x.cpu)), Byt(StatBytes(x.mem)), Byt(StatBytes(x.disk)), Byt(StatBytes(x.load)),
      Byt(StatBytes(x.netRx)), Byt(StatBytes(x.netTx)), Byt(StatBytes(x.tcpConns)), Byt(StatBytes(x.udpConns)),
      Byt(StatBytes(x.diskRead)), Byt(StatBytes(x.diskWrite)))
         == if AllStatsOk(r, x) then Ok(x) else Err
  {
    StatInTrip(r, x.cpu);
    StatInTrip(r, x.mem);
    StatInTrip(r, x.disk);
    StatInTrip(r, x.load);
    StatInTrip(r, x.netRx);
    StatInTrip(r, x.netTx);
    StatInTrip(r, x.tcpConns);
    StatInTrip(r, x.udpConns);
    StatInTrip(r, x.diskRead);
    StatInTrip(r, x.diskWrite);
  }

  lemma {:induction false} AggTrip(r: Reader, x: AggStats)
    ensures DecodeAgg(r, AggBytes(x)) == if AggOk(r, x) then Ok(x) else Err
  {
    AggNumbersListed();
    AggNumbers();
    AggListed(x);
    SlotsTrip(r, AGG_NUMBERS, AggValues(x));
    AggFields(r, x);
  }

  function VpsFrom(r: Reader, cpuModel: Slot, cpuCores: Slot, physicalCores: Slot, arch: Slot, totalMemMb: Slot,
      totalSwapMb: Slot, totalDiskGb: Slot, os: Slot, kernel: Slot, virtualization: Slot, gpuName: Slot,
      gpuCount: Slot, gpuAccessible: Slot, cpuTempC: Slot, gpuTempC: Slot, gpuUtil: Slot, motherboardTempC: Slot,
      diskTempC: Slot, chipsetTempC: Slot, temperatureSensors: Slot, diskList: Slot): Result<VpsInfo>
  {
    var cpuModel :- TextIn(cpuModel);
    var cpuCores :- NumberIn(cpuCores);
    var physicalCores :- NumberIn(physicalCores);
    var arch :- TextIn(arch);
    var totalMemMb :- NumberIn(totalMemMb);
    var totalSwapMb :- NumberIn(totalSwapMb);
    var totalDiskGb :- DoubleIn(totalDiskGb);
    var os :- TextIn(os);
    var kernel :- TextIn(kernel);
    var virtualization :- TextIn(virtualization);
    var gpuName :- TextIn(gpuName);
    var gpuCount :- NumberIn(gpuCount);
    var gpuAccessible :- NumberIn(gpuAccessible);
    var cpuTempC :- OptDoubleIn(cpuTempC);
    var gpuTempC :- OptDoubleIn(gpuTempC);
    var gpuUtil :- OptDoubleIn(gpuUtil);
    var motherboardTempC :- OptDoubleIn(motherboardTempC);
    var diskTempC :- OptDoubleIn(diskTempC);
    var chipsetTempC :- OptDoubleIn(chipsetTempC);
    var temperatureSensors :- DecodeEach(r, DecodeSensor, temperatureSensors);
    var diskList :- DecodeEach(r, DecodeDiskEntry, diskList);
    Ok(VpsInfo(cpuModel, cpuCores, physicalCores, arch, totalMemMb, totalSwapMb, totalDiskGb, os, kernel,
       virtualization, gpuName, gpuCount, gpuAccessible == 1, cpuTempC, gpuTempC, gpuUtil, motherboardTempC,
       diskTempC, chipsetTempC, temperatureSensors, diskList))
  }

  function DecodeVps(r: Reader, bytes: Text): Result<VpsInfo> {
    var s :- DecodeSlots(r, READ_VPS, bytes);
    VpsFrom(r, s[0], s[1], s[2], s[3], s[4], s[5], s[6], s[7], s[8], s[9], s[10], s[11], s[12], s[13], s[14], s[15],
      s[16], s[17], s[18], s[19], s[20])
  }

  ghost predicate VpsListsOk(r: Reader, x: VpsInfo) {
    AllOk(r, x.temperatureSensors, SensorOk) && AllOk(r, x.diskList, DiskEntryOk)
  }

  ghost predicate VpsOk(r: Reader, x: VpsInfo) { AllTaken(r, VpsValues(x)) && VpsListsOk(r, x) }

  lemma VpsLists(r: Reader, x: VpsInfo)
    ensures DecodeEach(r, DecodeSensor, Many(x.temperatureSensors, SensorBytes))
         == if AllOk(r, x.temperatureSensors, SensorOk) then Ok(x.temperatureSensors) else Err
    ensures DecodeEach(r, DecodeDiskEntry, Many(x.diskList, DiskEntryBytes))
         == if AllOk(r, x.diskList, DiskEntryOk) then Ok(x.diskList) else Err
  {
    forall i | 0 <= i < |x.temperatureSensors| { SensorTrip(r, x.temperatureSensors[i]); }
    EachTrip(r, x.temperatureSensors, SensorBytes, DecodeSensor, SensorOk, x.temperatureSensors);
    forall i | 0 <= i < |x.diskList| { DiskEntryTrip(r, x.diskList[i]); }
    EachTrip(r, x.diskList, DiskEntryBytes, DecodeDiskEntry, DiskEntryOk, x.diskList);
  }

  lemma VpsNumbersListed()
    ensures VPS_NUMBERS == READ_VPS
  {
  }

  lemma VpsNumbers()
    ensures FieldNumbers(READ_VPS)
  {
  }

  function VpsList(x: VpsInfo): seq<seq<Payload>> {
    [Byt(x.cpuModel), Num(x.cpuCores), Num(x.physicalCores), Byt(x.arch), Num(x.totalMemMb), Num(x.totalSwapMb),
     Dbl(x.totalDiskGb), Byt(x.os), Byt(x.kernel), Byt(x.virtualization), OptByt(NonEmpty(x.gpuName)),
     OptNum(NonZero(x.gpuCount)), OptNum(NonZero(Flag(x.gpuAccessible))), OptDbl(x.cpuTempC), OptDbl(x.gpuTempC),
     OptDbl(x.gpuUtil), OptDbl(x.motherboardTempC), OptDbl(x.diskTempC), OptDbl(x.chipsetTempC),
     Many(x.temperatureSensors, SensorBytes), Many(x.diskList, DiskEntryBytes)]
  }

  lemma VpsListed(x: VpsInfo)
    ensures VpsValues(x) == VpsList(x)
  {
    hide SensorBytes, DiskEntryBytes, Many, Byt, Num, Dbl, OptByt, OptDbl, OptNum, NonEmpty, NonZero, Flag;
  }

  /** A slot of one value reads as that value. */
  lemma ReadBack()
    ensures forall n: u64 {:trigger NumberIn(Num(n))} :: NumberIn(Num(n)) == Ok(n)
    ensures forall d: Double {:trigger DoubleIn(Dbl(d))} :: DoubleIn(Dbl(d)) == Ok(d)
    ensures forall t: Text {:trigger TextIn(Byt(t))} :: TextIn(Byt(t)) == Ok(t)
    ensures forall o: Option<Double> {:trigger OptDoubleIn(OptDbl(o))} :: OptDoubleIn(OptDbl(o)) == Ok(o)
  {
  }

  /** What is left out of the message reads as the value it stands for. */
  lemma OmittedFields(x: VpsInfo)
    ensures TextIn(OptByt(NonEmpty(x.gpuName))) == Ok(x.gpuName)
    ensures NumberIn(OptNum(NonZero(x.gpuCount))) == Ok(x.gpuCount)
    ensures NumberIn(OptNum(NonZero(Flag(x.gpuAccessible)))) == Ok(Flag(x.gpuAccessible))
  {
  }

  lemma VpsFields(r: Reader, x: VpsInfo)
    ensures VpsFrom(r, Byt(x.cpuModel), Num(x.cpuCores), Num(x.physicalCores), Byt(x.arch), Num(x.totalMemMb),
      Num(x.totalSwapMb), Dbl(x.totalDiskGb), Byt(x.os), Byt(x.kernel), Byt(x.virtualization),
      OptByt(NonEmpty(x.gpuName)), OptNum(NonZero(x.gpuCount)), OptNum(NonZero(Flag(x.gpuAccessible))),
      OptDbl(x.cpuTempC), OptDbl(x.gpuTempC), OptDbl(x.gpuUtil), OptDbl(x.motherboardTempC), OptDbl(x.diskTempC),
      OptDbl(x.chipsetTempC), Many(x.temperatureSensors, SensorBytes), Many(x.diskList, DiskEntryBytes))
         == if VpsListsOk(r, x) then Ok(x) else Err
  {
    hide AllOk, Byt, Dbl, DecodeDiskEntry, DecodeEach, DecodeSensor, DiskEntryBytes, DiskEntryOk, DoubleIn, Many, NonEmpty,
         NonZero, Num, NumberIn, OptByt, OptDbl, OptDoubleIn, OptNum, SensorBytes, SensorOk, TextIn;
    ReadBack();
    OmittedFields(x);
    VpsLists(r, x);
  }

  lemma VpsTrip(r: Reader, x: VpsInfo)
    ensures DecodeVps(r, VpsBytes(x)) == if VpsOk(r, x) then Ok(x) else Err
  {
    VpsNumbersListed();
    VpsNumbers();
    VpsListed(x);
    SlotsTrip(r, VPS_NUMBERS, VpsValues(x));
    VpsFields(r, x);
  }

  const NO_MEM := MemInfo(0, 0, ZERO, None)
  const NO_LOAD := LoadInfo(ZERO, ZERO, ZERO)
  const NO_DISK := DiskInfo(ZERO, ZERO, ZERO, ZERO)
  const NO_NET := NetInfo(ZERO, ZERO, 0, 0, 0, 0)
  const NO_DISKIO := DiskIoInfo(ZERO, ZERO)

  /** A message, or what stands for it when the field is absent. */
  function MessageOr<X>(r: Reader, decode: (Reader, Text) -> Result<X>, slot: Slot, other: X): Result<X> {
    var message :- LastMessage(r, decode, slot);
    Ok(OrElse(message, other))
  }

  /** Metrics as they arrive: pings are series. */
  datatype ReceivedMetrics = ReceivedMetrics(
    hostname: Text, processCount: u64, threadCount: u64, cpuPercent: Double,
    memory: MemInfo, load: LoadInfo, disk: DiskInfo, net: NetInfo, diskio: DiskIoInfo,
    uptimeSec: u64, stats: Option<AggStats>, samples: seq<SamplePoint>, vpsInfo: Option<VpsInfo>,
    series: seq<SentSeries>, proxyChecks: seq<ProxyCheckResult>)

  function MetricsFrom(r: Reader, hostname: Slot, processCount: Slot, threadCount: Slot, cpuPercent: Slot,
      memory: Slot, load: Slot, disk: Slot, net: Slot, diskio: Slot, uptimeSec: Slot, stats: Slot, samples: Slot,
      vpsInfo: Slot, series: Slot, proxyChecks: Slot): Result<ReceivedMetrics>
  {
    var hostname :- TextIn(hostname);
    var processCount :- NumberIn(processCount);
    var threadCount :- NumberIn(threadCount);
    var cpuPercent :- DoubleIn(cpuPercent);
    var memory :- MessageOr(r, DecodeMem, memory, NO_MEM);
    var load :- MessageOr(r, DecodeLoad, load, NO_LOAD);
    var disk :- MessageOr(r, DecodeDisk, disk, NO_DISK);
    var net :- MessageOr(r, DecodeNet, net, NO_NET);
    var diskio :- MessageOr(r, DecodeDiskIo, diskio, NO_DISKIO);
    var uptimeSec :- NumberIn(uptimeSec);
    var stats :- LastMessage(r, DecodeAgg, stats);
    var samples :- DecodeEach(r, DecodeSample, samples);
    var vpsInfo :- LastMessage(r, DecodeVps, vpsInfo);
    var series :- DecodeEach(r, DecodeSeries, series);
    var proxyChecks :- DecodeEach(r, DecodeProxy, proxyChecks);
    Ok(ReceivedMetrics(hostname, processCount, threadCount, cpuPercent, memory, load, disk, net, diskio, uptimeSec,
       stats, samples, vpsInfo, series, proxyChecks))
  }

  function DecodeMetrics(r: Reader, bytes: Text): Result<ReceivedMetrics> {
    var s :- DecodeSlots(r, READ_METRICS, bytes);
    MetricsFrom(r, s[0], s[1], s[2], s[3], s[4], s[5], s[6], s[7], s[8], s[9], s[10], s[11], s[12], s[13], s[14])
  }

  function AllSamples(samples: seq<SamplePoint>): seq<SamplePoint> {
    seq(|samples|, i requires 0 <= i < |samples| => ReceivedSample(samples[i]))
  }

  function AllProxyChecks(checks: seq<ProxyCheckResult>): seq<ProxyCheckResult> {
    seq(|checks|, i requires 0 <= i < |checks| => ReceivedProxy(checks[i]))
  }

  /** What the Worker should see of the metrics sent. */
  function Received(x: Metrics): ReceivedMetrics {
    ReceivedMetrics(x.hostname, x.processCount, x.threadCount, x.cpuPercent, x.memory, x.load, x.disk, x.net, x.diskio,
                    x.uptimeSec, x.stats, AllSamples(x.samples), x.vpsInfo, SendAll(GroupPings(x.pings)),
                    AllProxyChecks(x.proxyChecks))
  }

  ghost predicate PartsOk(r: Reader, x: Metrics) {
    MemOk(r, x.memory) && LoadOk(r, x.load) && DiskOk(r, x.disk) && NetOk(r, x.net) && DiskIoOk(r, x.diskio)
  }

  ghost predicate OptionsOk(r: Reader, x: Metrics) {
    (x.stats.Some? ==> AggOk(r, x.stats.value)) && (x.vpsInfo.Some? ==> VpsOk(r, x.vpsInfo.value))
  }

  ghost predicate ListsOk(r: Reader, x: Metrics) {
    && AllOk(r, x.samples, SampleOk)
    && AllOk(r, SendAll(GroupPings(x.pings)), SeriesOk)
    && AllOk(r, x.proxyChecks, ProxyOk)
  }

  /** Every number is within the reader's limit, and every double and length is one it takes. */
  ghost predicate MetricsOk(r: Reader, x: Metrics) {
    AllTaken(r, MetricsValues(x)) && PartsOk(r, x) && OptionsOk(r, x) && ListsOk(r, x)
  }

  lemma MetricsParts(r: Reader, x: Metrics)
    ensures MessageOr(r, DecodeMem, Byt(MemBytes(x.memory)), NO_MEM) == if MemOk(r, x.memory) then Ok(x.memory) else Err
    ensures MessageOr(r, DecodeLoad, Byt(LoadBytes(x.load)), NO_LOAD) == if LoadOk(r, x.load) then Ok(x.load) else Err
    ensures MessageOr(r, DecodeDisk, Byt(DiskBytes(x.disk)), NO_DISK) == if DiskOk(r, x.disk) then Ok(x.disk) else Err
    ensures MessageOr(r, DecodeNet, Byt(NetBytes(x.net)), NO_NET) == if NetOk(r, x.net) then Ok(x.net) else Err
    ensures MessageOr(r, DecodeDiskIo, Byt(DiskIoBytes(x.diskio)), NO_DISKIO)
         == if DiskIoOk(r, x.diskio) then Ok(x.diskio) else Err
  {
    MemTrip(r, x.memory);
    LastTrip(r, x.memory, MemBytes, DecodeMem, MemOk, x.memory);
    LoadTrip(r, x.load);
    LastTrip(r, x.load, LoadBytes, DecodeLoad, LoadOk, x.load);
    DiskTrip(r, x.disk);
    LastTrip(r, x.disk, DiskBytes, DecodeDisk, DiskOk, x.disk);
    NetTrip(r, x.net);
    LastTrip(r, x.net, NetBytes, DecodeNet, NetOk, x.net);
    DiskIoTrip(r, x.diskio);
    LastTrip(r, x.diskio, DiskIoBytes, DecodeDiskIo, DiskIoOk, x.diskio);
  }

  lemma MetricsOptions(r: Reader, x: Metrics)
    ensures LastMessage(r, DecodeAgg, OptMsg(x.stats, AggBytes))
         == if x.stats.Some? ==> AggOk(r, x.stats.value) then Ok(x.stats) else Err
    ensures LastMessage(r, DecodeVps, OptMsg(x.vpsInfo, VpsBytes))
         == if x.vpsInfo.Some? ==> VpsOk(r, x.vpsInfo.value) then Ok(x.vpsInfo) else Err
  {
    if x.stats.Some? {
      AggTrip(r, x.stats.value);
      LastTrip(r, x.stats.value, AggBytes, DecodeAgg, AggOk, x.stats.value);
    }
    if x.vpsInfo.Some? {
      VpsTrip(r, x.vpsInfo.value);
      LastTrip(r, x.vpsInfo.value, VpsBytes, DecodeVps, VpsOk, x.vpsInfo.value);
    }
  }

  lemma MetricsLists(r: Reader, x: Metrics)
    ensures DecodeEach(r, DecodeSample, Many(x.samples, SampleBytes)) 
         == if AllOk(r, x.samples, SampleOk) then Ok(AllSamples(x.samples)) else Err
    ensures var sent := SendAll(GroupPings(x.pings));
            DecodeEach(r, DecodeSeries, Many(sent, SeriesBytes)) == if AllOk(r, sent, SeriesOk) then Ok(sent) else Err
    ensures DecodeEach(r, DecodeProxy, Many(x.proxyChecks, ProxyBytes)) 
         == if AllOk(r, x.proxyChecks, ProxyOk) then Ok(AllProxyChecks(x.proxyChecks)) else Err
  {
    forall i | 0 <= i < |x.samples| { SampleTrip(r, x.samples[i]); }
    EachTrip(r, x.samples, SampleBytes, DecodeSample, SampleOk, AllSamples(x.samples));
    var sent := SendAll(GroupPings(x.pings));
    forall i | 0 <= i < |sent| { SeriesTrip(r, sent[i]); }
    EachTrip(r, sent, SeriesBytes, DecodeSeries, SeriesOk, sent);
    forall i | 0 <= i < |x.proxyChecks| { ProxyTrip(r, x.proxyChecks[i]); }
    EachTrip(r, x.proxyChecks, ProxyBytes, DecodeProxy, ProxyOk, AllProxyChecks(x.proxyChecks));
  }

  lemma MetricsNumbersListed()
    ensures METRICS_NUMBERS == READ_METRICS
  {
  }

  lemma MetricsNumbers()
    ensures FieldNumbers(READ_METRICS)
  {
  }

  function MetricsList(x: Metrics): seq<seq<Payload>> {
    [Byt(x.hostname), Num(x.processCount), Num(x.threadCount), Dbl(x.cpuPercent), Byt(MemBytes(x.memory)),
     Byt(LoadBytes(x.load)), Byt(DiskBytes(x.disk)), Byt(NetBytes(x.net)), Byt(DiskIoBytes(x.diskio)),
     Num(x.uptimeSec), OptMsg(x.stats, AggBytes), Many(x.samples, SampleBytes), OptMsg(x.vpsInfo, VpsBytes),
     Many(SendAll(GroupPings(x.pings)), SeriesBytes), Many(x.proxyChecks, ProxyBytes)]
  }

  lemma MetricsListed(x: Metrics)
    ensures MetricsValues(x) == MetricsList(x)
  {
    hide MemBytes, LoadBytes, DiskBytes, NetBytes, DiskIoBytes, SendAll, Many, OptMsg, Byt;
  }

  lemma MetricsFields(r: Reader, x: Metrics)
    ensures MetricsFrom(r, Byt(x.hostname), Num(x.processCount), Num(x.threadCount), Dbl(x.cpuPercent),
      Byt(MemBytes(x.memory)), Byt(LoadBytes(x.load)), Byt(DiskBytes(x.disk)), Byt(NetBytes(x.net)),
      Byt(DiskIoBytes(x.diskio)), Num(x.uptimeSec), OptMsg(x.stats, AggBytes), Many(x.samples, SampleBytes),
      OptMsg(x.vpsInfo, VpsBytes), Many(SendAll(GroupPings(x.pings)), SeriesBytes), Many(x.proxyChecks, ProxyBytes))
         == if PartsOk(r, x) && OptionsOk(r, x) && ListsOk(r, x) then Ok(Received(x)) else Err
  {
    hide AggBytes, AggOk, AllOk, AllProxyChecks, AllSamples, DecodeAgg, DecodeDisk, DecodeDiskIo, DecodeEach, DecodeLoad,
         DecodeMem, DecodeNet, DecodeProxy, DecodeSample, DecodeSeries, DecodeVps, DiskBytes, DiskIoBytes, DiskIoOk,
         DiskOk, LastMessage, LoadBytes, LoadOk, Many, MemBytes, MemOk, MessageOr, NetBytes, NetOk, OptMsg, SendAll,
         VpsBytes, VpsOk;
    MetricsParts(r, x);
    MetricsOptions(r, x);
    MetricsLists(r, x);
  }

  lemma {:induction false} MetricsTrip(r: Reader, x: Metrics)
    ensures DecodeMetrics(r, MetricsBytes(x)) == if MetricsOk(r, x) then Ok(Received(x)) else Err
  {
    MetricsNumbersListed();
    MetricsNumbers();
    MetricsListed(x);
    SlotsTrip(r, METRICS_NUMBERS, MetricsValues(x));
    MetricsFields(r, x);
  }

  // ----- The whole report -----

  datatype ReceivedReport = ReceivedReport(
    agentId: Text, agentLabel: Text, agentVersion: Text, capabilities: Option<Text>, metrics: ReceivedMetrics)

  /** The Worker bounds the frame, and wants protocol version 1 and the metrics. */
  function DecodeReport(r: Reader, bytes: Text): Result<ReceivedReport> {
    if r.Worker? && |bytes| > MAX_FRAME_BYTES then Err
    else
      var s :- DecodeSlots(r, READ_REPORT, bytes);
      var version :- NumberIn(s[0]);
      var agentId :- TextIn(s[1]);
      var agentLabel :- TextIn(s[2]);
      var agentVersion :- TextIn(s[3]);
      var capabilities :- OptTextIn(s[4]);
      var metrics :- LastMessage(r, DecodeMetrics, s[5]);
      if version != 1 || metrics.None? then Err
      else Ok(ReceivedReport(agentId, agentLabel, agentVersion, capabilities, metrics.value))
  }

  function ReceivedOf(x: Report): ReceivedReport {
    ReceivedReport(x.agentId, x.agentLabel, x.agentVersion, x.capabilities, Received(x.metrics))
  }

  ghost predicate ReportOk(r: Reader, x: Report) { AllTaken(r, ReportValues(x)) && MetricsOk(r, x.metrics) }

  /** Decoding an encoded report recovers it, exactly when the reader takes every value and the frame fits. */
  lemma {:induction false} ReportRoundTrip(r: Reader, x: Report)
    ensures DecodeReport(r, ReportBytes(x))
         == if ReportOk(r, x) && (r.Worker? ==> |ReportBytes(x)| <= 1_000_000) then Ok(ReceivedOf(x)) else Err
  {
    hide AllTaken, DecodeMetrics, DecodeSlots, LastMessage, MessageBytes, MetricsBytes, MetricsOk, Received;
    assert READ_REPORT == REPORT_NUMBERS;
    SlotsTrip(r, REPORT_NUMBERS, ReportValues(x));
    MetricsTrip(r, x.metrics);
    LastTrip(r, x.metrics, MetricsBytes, DecodeMetrics, MetricsOk, Received(x.metrics));
  }
}
