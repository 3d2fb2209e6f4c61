/** The rows of the history store, as the server writes them and the browser reads them. */
module HistoryModel {
  import opened Protocol

  datatype Pair = Pair(average: real, maximum: real)

  datatype DiskMinute = DiskMinute(mountpoint: string, usage: Pair, totalBytes: uint64, usedBytes: uint64)

  datatype MinutePayload = MinutePayload(
    cpuUsage: Pair, load1: Pair, load5: Pair, load15: Pair,
    memoryUsage: Pair, swapUsage: Pair, disks: seq<DiskMinute>,
    diskReadBps: Pair, diskWriteBps: Pair, uploadBps: Pair, downloadBps: Pair,
    totalUpload: uint64, totalDownload: uint64)

  datatype MinuteRecord = MinuteRecord(serverId: int, minuteUnix: int, payload: MinutePayload)
}
