/** What an agent reports. */
module Protocol {
  type uint64 = n: int | 0 <= n < 0x1_0000_0000_0000_0000

  datatype CPUStats = CPUStats(usagePercent: real, load1: real, load5: real, load15: real)

  datatype MemoryStats = MemoryStats(
    totalBytes: uint64, usedBytes: uint64, swapTotalBytes: uint64, swapUsedBytes: uint64)

  datatype DiskStats = DiskStats(mountpoint: string, totalBytes: uint64, usedBytes: uint64)

  datatype DiskIOStats = DiskIOStats(readBytesPerSecond: uint64, writeBytesPerSecond: uint64)

  datatype NetworkStats = NetworkStats(
    uploadBytesPerSecond: uint64, downloadBytesPerSecond: uint64, totalUploadBytes: uint64, totalDownloadBytes: uint64)

  datatype AgentReport = AgentReport(
    agentVersion: string, cpu: CPUStats, memory: MemoryStats, disks: seq<DiskStats>,
    diskIO: DiskIOStats, network: NetworkStats)
}
