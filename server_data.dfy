/** Generic optional value, used for the persisted copy and for `find` results. */
module Wrappers {
  datatype Option<+T> = None | Some(value: T)
}

/** The `Server` record and the default server list of the mock-data module. */
module ServerData {

  /** The three statuses a server can show on the dashboard. */
  datatype Status = Online | Offline | Warning

  /** One monitored server. Disk sizes are in gigabytes; the source stores them
      as JavaScript numbers, modelled here as mathematical integers. */
  datatype Server = Server(
    id: string,
    name: string,
    status: Status,
    totalDisk: int,
    usedDisk: int,
    ipAddress: string)

  /** The list that seeds an empty store. */
  const InitialServers: seq<Server> := [
    Server("srv-001", "PROD-WEB-01", Online, 500, 450, "192.168.1.10"),
    Server("srv-002", "PROD-DB-01", Online, 1024, 800, "192.168.1.11"),
    Server("srv-003", "DEV-APP-01", Warning, 250, 220, "10.0.0.5"),
    Server("srv-004", "STAGING-CACHE", Online, 100, 30, "10.0.0.21"),
    Server("srv-005", "BACKUP-01", Offline, 5120, 4800, "192.168.1.100")
  ]
}
