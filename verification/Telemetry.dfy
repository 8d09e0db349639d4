/**
 The values the agent collects and reports. Text is the UTF-8 bytes of a string. A double is
 its eight bytes in little-endian order: nothing here does floating-point arithmetic.
 Millisecond durations that travel as doubles are kept in that form.
 */
module Telemetry {
  import opened Wrappers

  type byte = b: int | 0 <= b < 0x100
  type u64 = n: int | 0 <= n < 0x1_0000_0000_0000_0000
  type i64 = n: int | -0x8000_0000_0000_0000 <= n < 0x8000_0000_0000_0000

  type Text = seq<byte>
  type Double = d: seq<byte> | |d| == 8 witness [0, 0, 0, 0, 0, 0, 0, 0]

  datatype SamplePoint = SamplePoint(
    ts: i64,
    cpu: Double, mem: Double, disk: Double, load: Double, load5: Double, load15: Double,
    processCount: u64,
    netRx: Double, netTx: Double,
    tcpConns: u64, udpConns: u64,
    diskRead: Double, diskWrite: Double,
    cpuTemp: Option<Double>, gpuTemp: Option<Double>, gpuUtil: Option<Double>,
    motherboardTemp: Option<Double>, diskTemp: Option<Double>, chipsetTemp: Option<Double>)

  datatype PingResult = PingResult(targetId: Text, ts: i64, latencyMs: Option<Double>, ok: bool)

  datatype ProxyCheckResult = ProxyCheckResult(
    targetId: Text, name: Text, protocol: Text, ts: i64,
    latencyMs: Option<Double>,
    handshakeMs: Option<nat>, firstByteMs: Option<nat>, totalMs: Option<nat>,
    ok: bool, stage: Text, error: Option<Text>)

  datatype SwapInfo = SwapInfo(totalMb: u64, usedMb: u64, percent: Double)

  datatype MemInfo = MemInfo(totalMb: u64, usedMb: u64, percent: Double, swap: Option<SwapInfo>)

  datatype LoadInfo = LoadInfo(load1: Double, load5: Double, load15: Double)

  datatype DiskInfo = DiskInfo(totalGb: Double, usedGb: Double, availGb: Double, percent: Double)

  datatype NetInfo = NetInfo(
    rxBytesSec: Double, txBytesSec: Double, rxBytes: u64, txBytes: u64, tcpConns: u64, udpConns: u64)

  datatype DiskIoInfo = DiskIoInfo(readBytesSec: Double, writeBytesSec: Double)

  datatype Stats = Stats(avg: Double, max: Double, min: Double)

  datatype AggStats = AggStats(
    cpu: Stats, mem: Stats, disk: Stats, load: Stats, netRx: Stats, netTx: Stats,
    tcpConns: Stats, udpConns: Stats, diskRead: Stats, diskWrite: Stats)

  datatype TemperatureSensor = TemperatureSensor(id: Text, labelText: Text, kind: Text, tempC: Double)

  datatype DiskEntry = DiskEntry(device: Text, mount: Text, totalGb: Double, usedGb: Double)

  datatype VpsInfo = VpsInfo(
    cpuModel: Text, cpuCores: u64, physicalCores: u64, arch: Text,
    totalMemMb: u64, totalSwapMb: u64, totalDiskGb: Double,
    os: Text, kernel: Text, virtualization: Text,
    gpuName: Text, gpuCount: u64, gpuAccessible: bool,
    cpuTempC: Option<Double>, gpuTempC: Option<Double>, gpuUtil: Option<Double>,
    motherboardTempC: Option<Double>, diskTempC: Option<Double>, chipsetTempC: Option<Double>,
    temperatureSensors: seq<TemperatureSensor>, diskList: seq<DiskEntry>)

  datatype Metrics = Metrics(
    hostname: Text, processCount: u64, threadCount: u64, cpuPercent: Double,
    memory: MemInfo, load: LoadInfo, disk: DiskInfo, net: NetInfo, diskio: DiskIoInfo,
    uptimeSec: u64,
    stats: Option<AggStats>, samples: seq<SamplePoint>, vpsInfo: Option<VpsInfo>,
    pings: seq<PingResult>, proxyChecks: seq<ProxyCheckResult>)
}
