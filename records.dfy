/** The value types exchanged between the producers, the store and the readers:
    one row of the `Timeframe` table, one row of the `Packet` table, and the
    `Stamp` the live chart draws. */
module Records {
  import opened Wrappers

  /** Store timestamps, in milliseconds (the tables' `TimestampField(resolution=1e3)`). */
  type Timestamp = nat

  /** One probe observation as persisted by `Dao.timestamp`. `iface` is the
      nullable `interface` column. */
  datatype ProbeRecord = ProbeRecord(
    ms: int,
    limit: int,
    receiver: string,
    receiverReadable: string,
    iface: Option<string>,
    interfaceDead: bool,
    datetime: Timestamp)

  /** One captured packet as persisted by `Dao.save_packet`. */
  datatype PacketRecord = PacketRecord(
    size: int,
    sender: string,
    receiver: string,
    interfaceUsed: string,
    datetime: Timestamp)

  /** A point of the live chart: its label, its latency and the label's vertical offset. */
  datatype Stamp = Stamp(labelText: string, ping: int, labelOffset: int)

  /** A stamp (or stored row) counts as dead when its latency is not positive. */
  predicate IsDead(ping: int) { ping <= 0 }
}
