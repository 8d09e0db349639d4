/** The agent's encoders: the slots of each message, in the order they are written, and their bytes. */
module TelemetryProto {
  import opened PingSeries
  import opened Telemetry
  import opened Wire
  import opened Wrappers

  const PROTOCOL_VERSION := 1
  const U64_MAX: nat := 0xFFFF_FFFF_FFFF_FFFF

  function Num(value: nat): seq<Payload> { [Varint(value)] }

  function Dbl(value: Double): seq<Payload> { [Fixed64(value)] }

  function Byt(value: Text): seq<Payload> { [Bytes(value)] }

  /** Counts wider than 64 bits are cut off at the largest 64-bit number. */
  function CapU64(n: nat): nat { if n <= U64_MAX then n else U64_MAX }

  function OptNum(value: Option<nat>): seq<Payload> {
    if value.Some? then [Varint(CapU64(value.value))] else []
  }

  function OptDbl(value: Option<Double>): seq<Payload> {
    if value.Some? then [Fixed64(value.value)] else []
  }

  function OptByt(value: Option<Text>): seq<Payload> {
    if value.Some? then [Bytes(value.value)] else []
  }

  function OptMsg<X>(value: Option<X>, encode: X -> Text): seq<Payload> {
    if value.Some? then [Bytes(encode(value.value))] else []
  }

  /** One value per element of a repeated message. */
  function Many<X>(items: seq<X>, encode: X -> Text): seq<Payload> {
    seq(|items|, i requires 0 <= i < |items| => Bytes(encode(items[i])))
  }

  lemma ManySnoc<X>(items: seq<X>, encode: X -> Text, i: nat)
    requires i < |items|
    ensures Many(items[..i + 1], encode) == Many(items[..i], encode) + [Bytes(encode(items[i]))]
  {
  }

  /** Negative times are sent as 0. */
  function ClampTs(ts: int): nat { if ts > 0 then ts else 0 }

  function Flag(ok: bool): nat { if ok then 1 else 0 }

  // ----- The slots of each message -----

  const SWAP_NUMBERS: seq<nat> :=
    [] + [1] + [2] + [3]

  function SwapValues(x: SwapInfo): seq<seq<Payload>> {
    [] + [Num(x.totalMb)] + [Num(x.usedMb)] + [Dbl(x.percent)]
  }

  function SwapBytes(x: SwapInfo): Text { MessageBytes(SWAP_NUMBERS, SwapValues(x)) }

  const MEM_NUMBERS: seq<nat> :=
    [] + [1] + [2] + [3] + [4]

  function MemValues(x: MemInfo): seq<seq<Payload>> {
    [] + [Num(x.totalMb)] + [Num(x.usedMb)] + [Dbl(x.percent)] + [OptMsg(x.swap, SwapBytes)]
  }

  function MemBytes(x: MemInfo): Text { MessageBytes(MEM_NUMBERS, MemValues(x)) }

  const LOAD_NUMBERS: seq<nat> :=
    [] + [1] + [2] + [3]

  function LoadValues(x: LoadInfo): seq<seq<Payload>> {
    [] + [Dbl(x.load1)] + [Dbl(x.load5)] + [Dbl(x.load15)]
  }

  function LoadBytes(x: LoadInfo): Text { MessageBytes(LOAD_NUMBERS, LoadValues(x)) }

  const DISK_NUMBERS: seq<nat> :=
    [] + [1] + [2] + [3] + [4]

  function DiskValues(x: DiskInfo): seq<seq<Payload>> {
    [] + [Dbl(x.totalGb)] + [Dbl(x.usedGb)] + [Dbl(x.availGb)] + [Dbl(x.percent)]
  }

  function DiskBytes(x: DiskInfo): Text { MessageBytes(DISK_NUMBERS, DiskValues(x)) }

  const NET_NUMBERS: seq<nat> :=
    [] + [1] + [2] + [3] + [4] + [5] + [6]

  function NetValues(x: NetInfo): seq<seq<Payload>> {
    [] + [Dbl(x.rxBytesSec)] + [Dbl(x.txBytesSec)] + [Num(x.rxBytes)] + [Num(x.txBytes)] + [Num(x.tcpConns)]
    + [Num(x.udpConns)]
  }

  function NetBytes(x: NetInfo): Text { MessageBytes(NET_NUMBERS, NetValues(x)) }

  const DISKIO_NUMBERS: seq<nat> :=
    [] + [1] + [2]

  function DiskIoValues(x: DiskIoInfo): seq<seq<Payload>> {
    [] + [Dbl(x.readBytesSec)] + [Dbl(x.writeBytesSec)]
  }

  function DiskIoBytes(x: DiskIoInfo): Text { MessageBytes(DISKIO_NUMBERS, DiskIoValues(x)) }

  const STAT_NUMBERS: seq<nat> :=
    [] + [1] + [2] + [3]

  function StatValues(x: Stats): seq<seq<Payload>> {
    [] + [Dbl(x.avg)] + [Dbl(x.max)] + [Dbl(x.min)]
  }

  function StatBytes(x: Stats): Text { MessageBytes(STAT_NUMBERS, StatValues(x)) }

  const AGG_NUMBERS: seq<nat> :=
    [] + [1] + [2] + [3] + [4] + [5] + [6] + [7] + [8] + [9] + [10]

  function AggValues(x: AggStats): seq<seq<Payload>> {
    [] + [Byt(StatBytes(x.cpu))] + [Byt(StatBytes(x.mem))] + [Byt(StatBytes(x.disk))] + [Byt(StatBytes(x.load))]
    + [Byt(StatBytes(x.netRx))] + [Byt(StatBytes(x.netTx))] + [Byt(StatBytes(x.tcpConns))]
    + [Byt(StatBytes(x.udpConns))] + [Byt(StatBytes(x.diskRead))] + [Byt(StatBytes(x.diskWrite))]
  }

  function AggBytes(x: AggStats): Text { MessageBytes(AGG_NUMBERS, AggValues(x)) }

  const SAMPLE_NUMBERS: seq<nat> :=
    [] + [1] + [2] + [3] + [4] + [5] + [6] + [7] + [8] + [18] + [19] + [20] + [9] + [10] + [11] + [12] + [13] + [14]
    + [15] + [16] + [17]

  function SampleValues(x: SamplePoint): seq<seq<Payload>> {
    [] + [Num(ClampTs(x.ts))] + [Dbl(x.cpu)] + [Dbl(x.mem)] + [Dbl(x.disk)] + [Dbl(x.load)] + [Dbl(x.netRx)]
    + [Dbl(x.netTx)] + [Num(x.tcpConns)] + [Num(x.processCount)] + [Dbl(x.load5)] + [Dbl(x.load15)]
    + [Num(x.udpConns)] + [Dbl(x.diskRead)] + [Dbl(x.diskWrite)] + [OptDbl(x.cpuTemp)] + [OptDbl(x.gpuTemp)]
    + [OptDbl(x.gpuUtil)] + [OptDbl(x.motherboardTemp)] + [OptDbl(x.diskTemp)] + [OptDbl(x.chipsetTemp)]
  }

  function SampleBytes(x: SamplePoint): Text { MessageBytes(SAMPLE_NUMBERS, SampleValues(x)) }

  const SENSOR_NUMBERS: seq<nat> :=
    [] + [1] + [2] + [3] + [4]

  function SensorValues(x: TemperatureSensor): seq<seq<Payload>> {
    [] + [Byt(x.id)] + [Byt(x.labelText)] + [Byt(x.kind)] + [Dbl(x.tempC)]
  }

  function SensorBytes(x: TemperatureSensor): Text { MessageBytes(SENSOR_NUMBERS, SensorValues(x)) }

  const DISKENTRY_NUMBERS: seq<nat> :=
    [] + [1] + [2] + [3] + [4]

  function DiskEntryValues(x: DiskEntry): seq<seq<Payload>> {
    [] + [Byt(x.device)] + [Byt(x.mount)] + [Dbl(x.totalGb)] + [Dbl(x.usedGb)]
  }

  function DiskEntryBytes(x: DiskEntry): Text { MessageBytes(DISKENTRY_NUMBERS, DiskEntryValues(x)) }

  function NonEmpty(text: Text): Option<Text> { if text != [] then Some(text) else None }

  function NonZero(n: nat): Option<nat> { if n > 0 then Some(n) else None }

  const VPS_NUMBERS: seq<nat> :=
    [] + [1] + [2] + [3] + [4] + [5] + [6] + [7] + [8] + [9] + [10] + [11] + [12] + [13] + [14] + [15] + [16] + [17]
    + [18] + [19] + [20] + [21]

  /** An empty name, a zero count and a false flag are left out. */
  function VpsValues(x: VpsInfo): seq<seq<Payload>> {
    [] + [Byt(x.cpuModel)] + [Num(x.cpuCores)] + [Num(x.physicalCores)] + [Byt(x.arch)] + [Num(x.totalMemMb)]
    + [Num(x.totalSwapMb)] + [Dbl(x.totalDiskGb)] + [Byt(x.os)] + [Byt(x.kernel)] + [Byt(x.virtualization)]
    + [OptByt(NonEmpty(x.gpuName))] + [OptNum(NonZero(x.gpuCount))] + [OptNum(NonZero(Flag(x.gpuAccessible)))]
    + [OptDbl(x.cpuTempC)] + [OptDbl(x.gpuTempC)] + [OptDbl(x.gpuUtil)] + [OptDbl(x.motherboardTempC)]
    + [OptDbl(x.diskTempC)] + [OptDbl(x.chipsetTempC)] + [Many(x.temperatureSensors, SensorBytes)]
    + [Many(x.diskList, DiskEntryBytes)]
  }

  function VpsBytes(x: VpsInfo): Text { MessageBytes(VPS_NUMBERS, VpsValues(x)) }

  /** A ping of a series: the delta from the series' start, never negative. */
  datatype Point = Point(dt: u64, latencyMs: Option<Double>, ok: bool)

  /** A series as it is sent. */
  datatype SentSeries = SentSeries(targetId: Text, t0: u64, points: seq<Point>)

  const POINT_NUMBERS: seq<nat> :=
    [] + [1] + [2] + [3]

  function PointValues(x: Point): seq<seq<Payload>> {
    [] + [Num(x.dt)] + [OptDbl(x.latencyMs)] + [Num(Flag(x.ok))]
  }

  function PointBytes(x: Point): Text { MessageBytes(POINT_NUMBERS, PointValues(x)) }

  const SERIES_NUMBERS: seq<nat> :=
    [] + [1] + [2] + [3]

  function SeriesValues(x: SentSeries): seq<seq<Payload>> {
    [] + [Byt(x.targetId)] + [Num(x.t0)] + [Many(x.points, PointBytes)]
  }

  function SeriesBytes(x: SentSeries): Text { MessageBytes(SERIES_NUMBERS, SeriesValues(x)) }

  function SendPoint(p: PingResult, t0: u64): Point {
    Point(CapU64(ClampTs(p.ts - t0)), p.latencyMs, p.ok)
  }

  function SendSeries(group: Group): SentSeries {
    var points := SortByTs(group.points);
    var t0 := CapU64(ClampTs(FirstTs(points)));
    SentSeries(group.targetId, t0, seq(|points|, i requires 0 <= i < |points| => SendPoint(points[i], t0)))
  }

  function SendAll(groups: seq<Group>): seq<SentSeries> {
    seq(|groups|, i requires 0 <= i < |groups| => SendSeries(groups[i]))
  }

  const PROXY_NUMBERS: seq<nat> :=
    [] + [1] + [2] + [3] + [4] + [5] + [6] + [7] + [8] + [9] + [10] + [11]

  function ProxyValues(x: ProxyCheckResult): seq<seq<Payload>> {
    [] + [Byt(x.targetId)] + [Byt(x.name)] + [Byt(x.protocol)] + [Num(ClampTs(x.ts))] + [OptDbl(x.latencyMs)]
    + [Num(Flag(x.ok))] + [Byt(x.stage)] + [OptByt(x.error)] + [OptNum(x.handshakeMs)] + [OptNum(x.firstByteMs)]
    + [OptNum(x.totalMs)]
  }

  function ProxyBytes(x: ProxyCheckResult): Text { MessageBytes(PROXY_NUMBERS, ProxyValues(x)) }

  const METRICS_NUMBERS: seq<nat> :=
    [] + [1] + [2] + [3] + [4] + [5] + [6] + [7] + [8] + [9] + [10] + [11] + [12] + [13] + [14] + [15]

  function MetricsValues(x: Metrics): seq<seq<Payload>> {
    [] + [Byt(x.hostname)] + [Num(x.processCount)] + [Num(x.threadCount)] + [Dbl(x.cpuPercent)]
    + [Byt(MemBytes(x.memory))] + [Byt(LoadBytes(x.load))] + [Byt(DiskBytes(x.disk))] + [Byt(NetBytes(x.net))]
    + [Byt(DiskIoBytes(x.diskio))] + [Num(x.uptimeSec)] + [OptMsg(x.stats, AggBytes)] + [Many(x.samples, SampleBytes)]
    + [OptMsg(x.vpsInfo, VpsBytes)] + [Many(SendAll(GroupPings(x.pings)), SeriesBytes)]
    + [Many(x.proxyChecks, ProxyBytes)]
  }

  function MetricsBytes(x: Metrics): Text { MessageBytes(METRICS_NUMBERS, MetricsValues(x)) }

  datatype Report = Report(agentId: Text, agentLabel: Text, agentVersion: Text, capabilities: Option<Text>, metrics: Metrics)

  const REPORT_NUMBERS: seq<nat> :=
    [] + [1] + [2] + [3] + [4] + [5] + [6]

  function ReportValues(x: Report): seq<seq<Payload>> {
    [] + [Num(PROTOCOL_VERSION)] + [Byt(x.agentId)] + [Byt(x.agentLabel)] + [Byt(x.agentVersion)]
    + [OptByt(x.capabilities)] + [Byt(MetricsBytes(x.metrics))]
  }

  function ReportBytes(x: Report): Text { MessageBytes(REPORT_NUMBERS, ReportValues(x)) }

  // ----- The encoders -----

  method PutOptDouble(sink: ByteSink, number: nat, value: Option<Double>)
    requires sink.Valid()
    modifies sink
    ensures sink.Valid() && sink.numbers == old(sink.numbers) + [number] && sink.values == old(sink.values) + [OptDbl(value)]
  {
    if value.Some? {
      sink.PutDouble(number, value.value);
    } else {
      sink.Skip(number);
    }
  }

  method PutOptNumber(sink: ByteSink, number: nat, value: Option<nat>)
    requires sink.Valid()
    modifies sink
    ensures sink.Valid() && sink.numbers == old(sink.numbers) + [number] && sink.values == old(sink.values) + [OptNum(value)]
  {
    if value.Some? {
      sink.PutNumber(number, CapU64(value.value));
    } else {
      sink.Skip(number);
    }
  }

  method PutOptBytes(sink: ByteSink, number: nat, value: Option<Text>)
    requires sink.Valid()
    modifies sink
    ensures sink.Valid() && sink.numbers == old(sink.numbers) + [number] && sink.values == old(sink.values) + [OptByt(value)]
  {
    if value.Some? {
      sink.PutBytes(number, value.value);
    } else {
      sink.Skip(number);
    }
  }

  method EncodeSwap(x: SwapInfo) returns (out: Text)
    ensures out == SwapBytes(x)
  {
    var sink := new ByteSink();
    sink.PutNumber(1, x.totalMb);
    sink.PutNumber(2, x.usedMb);
    sink.PutDouble(3, x.percent);
    out := sink.out;
  }

  method PutSwap(sink: ByteSink, x: Option<SwapInfo>)
    requires sink.Valid()
    modifies sink
    ensures sink.Valid() && sink.numbers == old(sink.numbers) + [4]
    ensures sink.values == old(sink.values) + [OptMsg(x, SwapBytes)]
  {
    if x.Some? {
      var nested := EncodeSwap(x.value);
      sink.PutBytes(4, nested);
    } else {
      sink.Skip(4);
    }
  }

  method EncodeMemory(x: MemInfo) returns (out: Text)
    ensures out == MemBytes(x)
  {
    var sink := new ByteSink();
    sink.PutNumber(1, x.totalMb);
    sink.PutNumber(2, x.usedMb);
    sink.PutDouble(3, x.percent);
    PutSwap(sink, x.swap);
    out := sink.out;
  }

  method EncodeLoad(x: LoadInfo) returns (out: Text)
    ensures out == LoadBytes(x)
  {
    var sink := new ByteSink();
    sink.PutDouble(1, x.load1);
    sink.PutDouble(2, x.load5);
    sink.PutDouble(3, x.load15);
    out := sink.out;
  }

  method EncodeDisk(x: DiskInfo) returns (out: Text)
    ensures out == DiskBytes(x)
  {
    var sink := new ByteSink();
    sink.PutDouble(1, x.totalGb);
    sink.PutDouble(2, x.usedGb);
    sink.PutDouble(3, x.availGb);
    sink.PutDouble(4, x.percent);
    out := sink.out;
  }

  method EncodeNet(x: NetInfo) returns (out: Text)
    ensures out == NetBytes(x)
  {
    var sink := new ByteSink();
    sink.PutDouble(1, x.rxBytesSec);
    sink.PutDouble(2, x.txBytesSec);
    sink.PutNumber(3, x.rxBytes);
    sink.PutNumber(4, x.txBytes);
    sink.PutNumber(5, x.tcpConns);
    sink.PutNumber(6, x.udpConns);
    out := sink.out;
  }

  method EncodeDiskIo(x: DiskIoInfo) returns (out: Text)
    ensures out == DiskIoBytes(x)
  {
    var sink := new ByteSink();
    sink.PutDouble(1, x.readBytesSec);
    sink.PutDouble(2, x.writeBytesSec);
    out := sink.out;
  }

  method EncodeStat(x: Stats) returns (out: Text)
    ensures out == StatBytes(x)
  {
    var sink := new ByteSink();
    sink.PutDouble(1, x.avg);
    sink.PutDouble(2, x.max);
    sink.PutDouble(3, x.min);
    out := sink.out;
  }

  method PutStat(sink: ByteSink, number: nat, x: Stats)
    requires sink.Valid()
    modifies sink
    ensures sink.Valid() && sink.numbers == old(sink.numbers) + [number] && sink.values == old(sink.values) + [Byt(StatBytes(x))]
  {
    var nested := EncodeStat(x);
    sink.PutBytes(number, nested);
  }

  method EncodeAggStats(x: AggStats) returns (out: Text)
    ensures out == AggBytes(x)
  {
    var sink := new ByteSink();
    PutStat(sink, 1, x.cpu);
    PutStat(sink, 2, x.mem);
    PutStat(sink, 3, x.disk);
    PutStat(sink, 4, x.load);
    PutStat(sink, 5, x.netRx);
    PutStat(sink, 6, x.netTx);
    PutStat(sink, 7, x.tcpConns);
    PutStat(sink, 8, x.udpConns);
    PutStat(sink, 9, x.diskRead);
    PutStat(sink, 10, x.diskWrite);
    out := sink.out;
  }

  method EncodeSample(x: SamplePoint) returns (out: Text)
    ensures out == SampleBytes(x)
  {
    var sink := new ByteSink();
    sink.PutNumber(1, ClampTs(x.ts));
    sink.PutDouble(2, x.cpu);
    sink.PutDouble(3, x.mem);
    sink.PutDouble(4, x.disk);
    sink.PutDouble(5, x.load);
    sink.PutDouble(6, x.netRx);
    sink.PutDouble(7, x.netTx);
    sink.PutNumber(8, x.tcpConns);
    sink.PutNumber(18, x.processCount);
    sink.PutDouble(19, x.load5);
    sink.PutDouble(20, x.load15);
    sink.PutNumber(9, x.udpConns);
    sink.PutDouble(10, x.diskRead);
    sink.PutDouble(11, x.diskWrite);
    PutOptDouble(sink, 12, x.cpuTemp);
    PutOptDouble(sink, 13, x.gpuTemp);
    PutOptDouble(sink, 14, x.gpuUtil);
    PutOptDouble(sink, 15, x.motherboardTemp);
    PutOptDouble(sink, 16, x.diskTemp);
    PutOptDouble(sink, 17, x.chipsetTemp);
    out := sink.out;
  }

  method EncodeSensor(x: TemperatureSensor) returns (out: Text)
    ensures out == SensorBytes(x)
  {
    var sink := new ByteSink();
    sink.PutBytes(1, x.id);
    sink.PutBytes(2, x.labelText);
    sink.PutBytes(3, x.kind);
    sink.PutDouble(4, x.tempC);
    out := sink.out;
  }

  method EncodeDiskEntry(x: DiskEntry) returns (out: Text)
    ensures out == DiskEntryBytes(x)
  {
    var sink := new ByteSink();
    sink.PutBytes(1, x.device);
    sink.PutBytes(2, x.mount);
    sink.PutDouble(3, x.totalGb);
    sink.PutDouble(4, x.usedGb);
    out := sink.out;
  }

  method PutSensors(sink: ByteSink, sensors: seq<TemperatureSensor>)
    requires sink.Valid()
    modifies sink
    ensures sink.Valid() && sink.numbers == old(sink.numbers) + [20]
    ensures sink.values == old(sink.values) + [Many(sensors, SensorBytes)]
  {
    sink.Skip(20);
    assert Many(sensors[..0], SensorBytes) == [];
    for i := 0 to |sensors|
      invariant sink.Valid() && sink.numbers == old(sink.numbers) + [20]
      invariant sink.values == old(sink.values) + [Many(sensors[..i], SensorBytes)]
    {
      var nested := EncodeSensor(sensors[i]);
      sink.PutRepeated(20, nested);
      ManySnoc(sensors, SensorBytes, i);
    }
    assert sensors[..|sensors|] == sensors;
  }

  method PutDiskEntries(sink: ByteSink, entries: seq<DiskEntry>)
    requires sink.Valid()
    modifies sink
    ensures sink.Valid() && sink.numbers == old(sink.numbers) + [21]
    ensures sink.values == old(sink.values) + [Many(entries, DiskEntryBytes)]
  {
    sink.Skip(21);
    assert Many(entries[..0], DiskEntryBytes) == [];
    for i := 0 to |entries|
      invariant sink.Valid() && sink.numbers == old(sink.numbers) + [21]
      invariant sink.values == old(sink.values) + [Many(entries[..i], DiskEntryBytes)]
    {
      var nested := EncodeDiskEntry(entries[i]);
      sink.PutRepeated(21, nested);
      ManySnoc(entries, DiskEntryBytes, i);
    }
    assert entries[..|entries|] == entries;
  }

  method EncodeVpsInfo(x: VpsInfo) returns (out: Text)
    ensures out == VpsBytes(x)
  {
    var sink := new ByteSink();
    sink.PutBytes(1, x.cpuModel);
    sink.PutNumber(2, x.cpuCores);
    sink.PutNumber(3, x.physicalCores);
    sink.PutBytes(4, x.arch);
    sink.PutNumber(5, x.totalMemMb);
    sink.PutNumber(6, x.totalSwapMb);
    sink.PutDouble(7, x.totalDiskGb);
    sink.PutBytes(8, x.os);
    sink.PutBytes(9, x.kernel);
    sink.PutBytes(10, x.virtualization);
    PutOptBytes(sink, 11, NonEmpty(x.gpuName));
    PutOptNumber(sink, 12, NonZero(x.gpuCount));
    PutOptNumber(sink, 13, NonZero(Flag(x.gpuAccessible)));
    PutOptDouble(sink, 14, x.cpuTempC);
    PutOptDouble(sink, 15, x.gpuTempC);
    PutOptDouble(sink, 16, x.gpuUtil);
    PutOptDouble(sink, 17, x.motherboardTempC);
    PutOptDouble(sink, 18, x.diskTempC);
    PutOptDouble(sink, 19, x.chipsetTempC);
    PutSensors(sink, x.temperatureSensors);
    PutDiskEntries(sink, x.diskList);
    out := sink.out;
  }

  method EncodePoint(x: Point) returns (out: Text)
    ensures out == PointBytes(x)
  {
    var sink := new ByteSink();
    sink.PutNumber(1, x.dt);
    PutOptDouble(sink, 2, x.latencyMs);
    sink.PutNumber(3, Flag(x.ok));
    out := sink.out;
  }

  method PutPoints(sink: ByteSink, points: seq<PingResult>, t0: u64, ghost sent: seq<Point>)
    requires sink.Valid()
    requires |sent| == |points| && forall i :: 0 <= i < |points| ==> sent[i] == SendPoint(points[i], t0)
    modifies sink
    ensures sink.Valid() && sink.numbers == old(sink.numbers) + [3]
    ensures sink.values == old(sink.values) + [Many(sent, PointBytes)]
  {
    sink.Skip(3);
    assert Many(sent[..0], PointBytes) == [];
    for i := 0 to |points|
      invariant sink.Valid() && sink.numbers == old(sink.numbers) + [3]
      invariant sink.values == old(sink.values) + [Many(sent[..i], PointBytes)]
    {
      var nested := EncodePoint(SendPoint(points[i], t0));
      sink.PutRepeated(3, nested);
      ManySnoc(sent, PointBytes, i);
    }
    assert sent[..|sent|] == sent;
  }

  method EncodeSeries(group: Group) returns (out: Text)
    ensures out == SeriesBytes(SendSeries(group))
  {
    var points := SortByTs(group.points);
    var t0 := CapU64(ClampTs(FirstTs(points)));
    var sink := new ByteSink();
    sink.PutBytes(1, group.targetId);
    sink.PutNumber(2, t0);
    PutPoints(sink, points, t0, SendSeries(group).points);
    out := sink.out;
  }

  method EncodeProxyCheck(x: ProxyCheckResult) returns (out: Text)
    ensures out == ProxyBytes(x)
  {
    var sink := new ByteSink();
    sink.PutBytes(1, x.targetId);
    sink.PutBytes(2, x.name);
    sink.PutBytes(3, x.protocol);
    sink.PutNumber(4, ClampTs(x.ts));
    PutOptDouble(sink, 5, x.latencyMs);
    sink.PutNumber(6, Flag(x.ok));
    sink.PutBytes(7, x.stage);
    PutOptBytes(sink, 8, x.error);
    PutOptNumber(sink, 9, x.handshakeMs);
    PutOptNumber(sink, 10, x.firstByteMs);
    PutOptNumber(sink, 11, x.totalMs);
    out := sink.out;
  }

  method PutSamples(sink: ByteSink, samples: seq<SamplePoint>)
    requires sink.Valid()
    modifies sink
    ensures sink.Valid() && sink.numbers == old(sink.numbers) + [12]
    ensures sink.values == old(sink.values) + [Many(samples, SampleBytes)]
  {
    sink.Skip(12);
    assert Many(samples[..0], SampleBytes) == [];
    for i := 0 to |samples|
      invariant sink.Valid() && sink.numbers == old(sink.numbers) + [12]
      invariant sink.values == old(sink.values) + [Many(samples[..i], SampleBytes)]
    {
      var nested := EncodeSample(samples[i]);
      sink.PutRepeated(12, nested);
      ManySnoc(samples, SampleBytes, i);
    }
    assert samples[..|samples|] == samples;
  }

  method PutSeries(sink: ByteSink, pings: seq<PingResult>)
    requires sink.Valid()
    modifies sink
    ensures sink.Valid() && sink.numbers == old(sink.numbers) + [14]
    ensures sink.values == old(sink.values) + [Many(SendAll(GroupPings(pings)), SeriesBytes)]
  {
    var groups := GroupAll(pings);
    ghost var sent := SendAll(groups);
    sink.Skip(14);
    assert Many(sent[..0], SeriesBytes) == [];
    for i := 0 to |groups|
      invariant sink.Valid() && sink.numbers == old(sink.numbers) + [14]
      invariant sink.values == old(sink.values) + [Many(sent[..i], SeriesBytes)]
    {
      var nested := EncodeSeries(groups[i]);
      sink.PutRepeated(14, nested);
      ManySnoc(sent, SeriesBytes, i);
    }
    assert sent[..|sent|] == sent;
  }

  method PutProxyChecks(sink: ByteSink, checks: seq<ProxyCheckResult>)
    requires sink.Valid()
    modifies sink
    ensures sink.Valid() && sink.numbers == old(sink.numbers) + [15]
    ensures sink.values == old(sink.values) + [Many(checks, ProxyBytes)]
  {
    sink.Skip(15);
    assert Many(checks[..0], ProxyBytes) == [];
    for i := 0 to |checks|
      invariant sink.Valid() && sink.numbers == old(sink.numbers) + [15]
      invariant sink.values == old(sink.values) + [Many(checks[..i], ProxyBytes)]
    {
      var nested := EncodeProxyCheck(checks[i]);
      sink.PutRepeated(15, nested);
      ManySnoc(checks, ProxyBytes, i);
    }
    assert checks[..|checks|] == checks;
  }

  method PutStats(sink: ByteSink, x: Option<AggStats>)
    requires sink.Valid()
    modifies sink
    ensures sink.Valid() && sink.numbers == old(sink.numbers) + [11]
    ensures sink.values == old(sink.values) + [OptMsg(x, AggBytes)]
  {
    if x.Some? {
      var nested := EncodeAggStats(x.value);
      sink.PutBytes(11, nested);
    } else {
      sink.Skip(11);
    }
  }

  method PutVpsInfo(sink: ByteSink, x: Option<VpsInfo>)
    requires sink.Valid()
    modifies sink
    ensures sink.Valid() && sink.numbers == old(sink.numbers) + [13]
    ensures sink.values == old(sink.values) + [OptMsg(x, VpsBytes)]
  {
    if x.Some? {
      var nested := EncodeVpsInfo(x.value);
      sink.PutBytes(13, nested);
    } else {
      sink.Skip(13);
    }
  }

  method EncodeMetrics(x: Metrics) returns (out: Text)
    ensures out == MetricsBytes(x)
  {
    var sink := new ByteSink();
    sink.PutBytes(1, x.hostname);
    sink.PutNumber(2, x.processCount);
    sink.PutNumber(3, x.threadCount);
    sink.PutDouble(4, x.cpuPercent);
    var memory := EncodeMemory(x.memory);
    sink.PutBytes(5, memory);
    var load := EncodeLoad(x.load);
    sink.PutBytes(6, load);
    var disk := EncodeDisk(x.disk);
    sink.PutBytes(7, disk);
    var net := EncodeNet(x.net);
    sink.PutBytes(8, net);
    var diskio := EncodeDiskIo(x.diskio);
    sink.PutBytes(9, diskio);
    sink.PutNumber(10, x.uptimeSec);
    PutStats(sink, x.stats);
    PutSamples(sink, x.samples);
    PutVpsInfo(sink, x.vpsInfo);
    PutSeries(sink, x.pings);
    PutProxyChecks(sink, x.proxyChecks);
    out := sink.out;
  }

  method EncodePayload(x: Report) returns (out: Text)
    ensures out == ReportBytes(x)
  {
    var sink := new ByteSink();
    sink.PutNumber(1, PROTOCOL_VERSION);
    sink.PutBytes(2, x.agentId);
    sink.PutBytes(3, x.agentLabel);
    sink.PutBytes(4, x.agentVersion);
    PutOptBytes(sink, 5, x.capabilities);
    var metrics := EncodeMetrics(x.metrics);
    sink.PutBytes(6, metrics);
    out := sink.out;
  }
}
