/** A reader that takes all the wire format allows recovers every report that has a length. */
module TelemetryStandard {
  import opened PingSeries
  import opened Telemetry
  import opened TelemetryDecode
  import opened TelemetryProto
  import opened Wire
  import opened Wrappers

  ghost predicate U64Slot(slot: Slot) {
    forall p <- slot :: p.Varint? ==> p.value <= U64_MAX
  }

  ghost predicate U64Slots(slots: seq<Slot>) {
    forall i :: 0 <= i < |slots| ==> U64Slot(slots[i])
  }

  /** No length inside a message exceeds the message's own. */
  lemma StandardTakes(numbers: seq<nat>, values: seq<Slot>)
    requires |numbers| == |values| && U64Slots(values) && |MessageBytes(numbers, values)| <= U64_MAX
    ensures AllTaken(Standard, values)
  {
    forall i, p | 0 <= i < |values| && p in values[i]
      ensures Taken(Standard, p)
    {
      assert U64Slot(values[i]);
      if p.Bytes? { PartFits(numbers, values, i, p.data); }
    }
  }

  lemma SwapStandard(x: SwapInfo)
    requires |SwapBytes(x)| <= U64_MAX
    ensures SwapOk(Standard, x)
  {
    StandardTakes(SWAP_NUMBERS, SwapValues(x));
  }

  lemma LoadStandard(x: LoadInfo)
    requires |LoadBytes(x)| <= U64_MAX
    ensures LoadOk(Standard, x)
  {
    StandardTakes(LOAD_NUMBERS, LoadValues(x));
  }

  lemma DiskStandard(x: DiskInfo)
    requires |DiskBytes(x)| <= U64_MAX
    ensures DiskOk(Standard, x)
  {
    StandardTakes(DISK_NUMBERS, DiskValues(x));
  }

  lemma NetStandard(x: NetInfo)
    requires |NetBytes(x)| <= U64_MAX
    ensures NetOk(Standard, x)
  {
    StandardTakes(NET_NUMBERS, NetValues(x));
  }

  lemma DiskIoStandard(x: DiskIoInfo)
    requires |DiskIoBytes(x)| <= U64_MAX
    ensures DiskIoOk(Standard, x)
  {
    StandardTakes(DISKIO_NUMBERS, DiskIoValues(x));
  }

  lemma StatStandard(x: Stats)
    requires |StatBytes(x)| <= U64_MAX
    ensures StatOk(Standard, x)
  {
    StandardTakes(STAT_NUMBERS, StatValues(x));
  }

  lemma SensorStandard(x: TemperatureSensor)
    requires |SensorBytes(x)| <= U64_MAX
    ensures SensorOk(Standard, x)
  {
    StandardTakes(SENSOR_NUMBERS, SensorValues(x));
  }

  lemma DiskEntryStandard(x: DiskEntry)
    requires |DiskEntryBytes(x)| <= U64_MAX
    ensures DiskEntryOk(Standard, x)
  {
    StandardTakes(DISKENTRY_NUMBERS, DiskEntryValues(x));
  }

  lemma PointStandard(x: Point)
    requires |PointBytes(x)| <= U64_MAX
    ensures PointOk(Standard, x)
  {
    StandardTakes(POINT_NUMBERS, PointValues(x));
  }

  lemma MemStandard(x: MemInfo)
    requires |MemBytes(x)| <= U64_MAX
    ensures MemOk(Standard, x)
  {
    hide AllTaken, MessageBytes;
    StandardTakes(MEM_NUMBERS, MemValues(x));
    if x.swap.Some? {
      PartFits(MEM_NUMBERS, MemValues(x), 3, SwapBytes(x.swap.value));
      SwapStandard(x.swap.value);
    }
  }

  lemma SeriesStandard(x: SentSeries)
    requires |SeriesBytes(x)| <= U64_MAX
    ensures SeriesOk(Standard, x)
  {
    hide AllTaken, MessageBytes, PointOk, PointValues;
    StandardTakes(SERIES_NUMBERS, SeriesValues(x));
    forall i | 0 <= i < |x.points| ensures PointOk(Standard, x.points[i]) {
      assert Many(x.points, PointBytes)[i] == Bytes(PointBytes(x.points[i]));
      PartFits(SERIES_NUMBERS, SeriesValues(x), 2, PointBytes(x.points[i]));
      PointStandard(x.points[i]);
    }
  }

  lemma SampleStandard(x: SamplePoint)
    requires |SampleBytes(x)| <= U64_MAX
    ensures SampleOk(Standard, x)
  {
    hide AllTaken, MessageBytes, SampleValues;
    SampleListed(x);
    SampleNumbersListed();
    assert U64Slots(SampleList(x));
    StandardTakes(SAMPLE_NUMBERS, SampleValues(x));
  }

  lemma ProxyStandard(x: ProxyCheckResult)
    requires |ProxyBytes(x)| <= U64_MAX
    ensures ProxyOk(Standard, x)
  {
    hide AllTaken, MessageBytes, ProxyValues;
    ProxyListed(x);
    ProxyNumbersListed();
    assert U64Slots(ProxyList(x));
    StandardTakes(PROXY_NUMBERS, ProxyValues(x));
  }

  lemma AggPart(x: AggStats, i: nat, stats: Stats)
    requires i < |AggList(x)| && AggList(x)[i] == Byt(StatBytes(stats)) && |AggBytes(x)| <= U64_MAX
    ensures StatOk(Standard, stats)
  {
    hide MessageBytes, StatBytes, StatOk;
    AggListed(x);
    PartFits(AGG_NUMBERS, AggValues(x), i, StatBytes(stats));
    StatStandard(stats);
  }

  lemma AggStandard(x: AggStats)
    requires |AggBytes(x)| <= U64_MAX
    ensures AggOk(Standard, x)
  {
    hide AllTaken, MessageBytes, StatBytes, StatOk;
    AggListed(x);
    assert U64Slots(AggList(x));
    StandardTakes(AGG_NUMBERS, AggValues(x));
    AggPart(x, 0, x.cpu);
    AggPart(x, 1, x.mem);
    AggPart(x, 2, x.disk);
    AggPart(x, 3, x.load);
    AggPart(x, 4, x.netRx);
    AggPart(x, 5, x.netTx);
    AggPart(x, 6, x.tcpConns);
    AggPart(x, 7, x.udpConns);
    AggPart(x, 8, x.diskRead);
    AggPart(x, 9, x.diskWrite);
  }

  lemma ManyU64<X>(items: seq<X>, encode: X -> Text)
    ensures U64Slot(Many(items, encode))
  {
  }

  lemma SlotsU64()
    ensures forall n: u64 {:trigger U64Slot(Num(n))} :: U64Slot(Num(n))
    ensures forall d: Double {:trigger U64Slot(Dbl(d))} :: U64Slot(Dbl(d))
    ensures forall t: Text {:trigger U64Slot(Byt(t))} :: U64Slot(Byt(t))
    ensures forall n: Option<nat> {:trigger U64Slot(OptNum(n))} :: U64Slot(OptNum(n))
    ensures forall o: Option<Double> {:trigger U64Slot(OptDbl(o))} :: U64Slot(OptDbl(o))
    ensures forall t: Option<Text> {:trigger U64Slot(OptByt(t))} :: U64Slot(OptByt(t))
  {
  }

  lemma VpsU64(x: VpsInfo)
    ensures U64Slots(VpsList(x))
  {
    hide Byt, Dbl, DiskEntryBytes, Many, Num, OptByt, OptDbl, OptNum, SensorBytes, U64Slot;
    SlotsU64();
    ManyU64(x.temperatureSensors, SensorBytes);
    ManyU64(x.diskList, DiskEntryBytes);
  }

  lemma VpsStandard(x: VpsInfo)
    requires |VpsBytes(x)| <= U64_MAX
    ensures VpsOk(Standard, x)
  {
    hide AllTaken, MessageBytes, VpsValues, SensorBytes, SensorOk, DiskEntryBytes, DiskEntryOk;
    VpsListed(x);
    VpsNumbersListed();
    VpsU64(x);
    StandardTakes(VPS_NUMBERS, VpsValues(x));
    forall i | 0 <= i < |x.temperatureSensors| ensures SensorOk(Standard, x.temperatureSensors[i]) {
      assert Many(x.temperatureSensors, SensorBytes)[i] == Bytes(SensorBytes(x.temperatureSensors[i]));
      PartFits(VPS_NUMBERS, VpsValues(x), 19, SensorBytes(x.temperatureSensors[i]));
      SensorStandard(x.temperatureSensors[i]);
    }
    forall i | 0 <= i < |x.diskList| ensures DiskEntryOk(Standard, x.diskList[i]) {
      assert Many(x.diskList, DiskEntryBytes)[i] == Bytes(DiskEntryBytes(x.diskList[i]));
      PartFits(VPS_NUMBERS, VpsValues(x), 20, DiskEntryBytes(x.diskList[i]));
      DiskEntryStandard(x.diskList[i]);
    }
  }

  lemma MetricsPart(x: Metrics, i: nat, data: Text)
    requires i < |MetricsList(x)| && Bytes(data) in MetricsList(x)[i] && |MetricsBytes(x)| <= U64_MAX
    ensures |data| <= U64_MAX
  {
    hide MessageBytes, MetricsValues, Many, SendAll, MemBytes, LoadBytes, DiskBytes, NetBytes, DiskIoBytes, Num, Dbl, Byt, OptMsg;
    MetricsListed(x);
    MetricsNumbersListed();
    PartFits(METRICS_NUMBERS, MetricsValues(x), i, data);
  }

  lemma PartsStandard(x: Metrics)
    requires |MetricsBytes(x)| <= U64_MAX
    ensures PartsOk(Standard, x)
  {
    hide MessageBytes, MetricsBytes, MemBytes, MemOk, LoadBytes, LoadOk, DiskBytes, DiskOk, NetBytes, NetOk, DiskIoBytes,
         DiskIoOk;
    MetricsPart(x, 4, MemBytes(x.memory));
    MemStandard(x.memory);
    MetricsPart(x, 5, LoadBytes(x.load));
    LoadStandard(x.load);
    MetricsPart(x, 6, DiskBytes(x.disk));
    DiskStandard(x.disk);
    MetricsPart(x, 7, NetBytes(x.net));
    NetStandard(x.net);
    MetricsPart(x, 8, DiskIoBytes(x.diskio));
    DiskIoStandard(x.diskio);
  }

  lemma OptionsStandard(x: Metrics)
    requires |MetricsBytes(x)| <= U64_MAX
    ensures OptionsOk(Standard, x)
  {
    hide MessageBytes, MetricsBytes, AggBytes, AggOk, VpsBytes, VpsOk;
    if x.stats.Some? {
      MetricsPart(x, 10, AggBytes(x.stats.value));
      AggStandard(x.stats.value);
    }
    if x.vpsInfo.Some? {
      MetricsPart(x, 12, VpsBytes(x.vpsInfo.value));
      VpsStandard(x.vpsInfo.value);
    }
  }

  lemma ListsStandard(x: Metrics)
    requires |MetricsBytes(x)| <= U64_MAX
    ensures ListsOk(Standard, x)
  {
    hide MessageBytes, MetricsBytes, SampleBytes, SampleOk, SeriesBytes, SeriesOk, ProxyBytes, ProxyOk, SendAll;
    forall i | 0 <= i < |x.samples| ensures SampleOk(Standard, x.samples[i]) {
      assert Many(x.samples, SampleBytes)[i] == Bytes(SampleBytes(x.samples[i]));
      MetricsPart(x, 11, SampleBytes(x.samples[i]));
      SampleStandard(x.samples[i]);
    }
    var sent := SendAll(GroupPings(x.pings));
    forall i | 0 <= i < |sent| ensures SeriesOk(Standard, sent[i]) {
      assert Many(sent, SeriesBytes)[i] == Bytes(SeriesBytes(sent[i]));
      MetricsPart(x, 13, SeriesBytes(sent[i]));
      SeriesStandard(sent[i]);
    }
    forall i | 0 <= i < |x.proxyChecks| ensures ProxyOk(Standard, x.proxyChecks[i]) {
      assert Many(x.proxyChecks, ProxyBytes)[i] == Bytes(ProxyBytes(x.proxyChecks[i]));
      MetricsPart(x, 14, ProxyBytes(x.proxyChecks[i]));
      ProxyStandard(x.proxyChecks[i]);
    }
  }

  lemma MetricsTaken(x: Metrics)
    requires |MetricsBytes(x)| <= U64_MAX
    ensures AllTaken(Standard, MetricsValues(x))
  {
    hide AllTaken, MessageBytes, MetricsValues, Many, SendAll, MemBytes, LoadBytes, DiskBytes, NetBytes, DiskIoBytes;
    MetricsListed(x);
    MetricsNumbersListed();
    ManyU64(x.samples, SampleBytes);
    ManyU64(SendAll(GroupPings(x.pings)), SeriesBytes);
    ManyU64(x.proxyChecks, ProxyBytes);
    assert U64Slots(MetricsList(x));
    StandardTakes(METRICS_NUMBERS, MetricsValues(x));
  }

  /** The round trip on all reports: negative times read as 0, everything else as it was sent. */
  lemma {:induction false} StandardRecovers(x: Report)
    requires |ReportBytes(x)| <= U64_MAX
    ensures DecodeReport(Standard, ReportBytes(x)) == Ok(ReceivedOf(x))
  {
    hide AllTaken, MessageBytes, MetricsBytes, DecodeReport, ReceivedOf;
    StandardTakes(REPORT_NUMBERS, ReportValues(x));
    PartFits(REPORT_NUMBERS, ReportValues(x), 5, MetricsBytes(x.metrics));
    MetricsTaken(x.metrics);
    PartsStandard(x.metrics);
    OptionsStandard(x.metrics);
    ListsStandard(x.metrics);
    ReportRoundTrip(Standard, x);
  }
}
