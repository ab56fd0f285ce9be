/** The server-list store: the status rules applied on load and on add, the
    filter that deletes, and the store object holding the in-memory list, the
    persisted copy and the loaded flag. */
module UseServers {
  import opened Wrappers
  import opened ServerData

  /** The address that is always reported Offline when the list is loaded. */
  const OfflineSentinel: string := "192.168.1.100"

  /** The fields a caller supplies when adding a server. */
  datatype NewServer = NewServer(name: string, ipAddress: string, totalDisk: int, usedDisk: int)

  // ---------------------------------------------------------------------------
  // Usage threshold
  // ---------------------------------------------------------------------------

  /** The usage percentage in exact real arithmetic. */
  ghost function UsagePercent(usedDisk: int, totalDisk: int): real
    requires totalDisk != 0
  {
    (usedDisk as real / totalDisk as real) * 100.0
  }

  /** Whether `(usedDisk / totalDisk) * 100 > 85` holds, evaluated exactly.
      For a positive or negative total this is the real-number comparison,
      cross-multiplied (the inequality flips for a negative divisor). For a zero
      total the quotient is +Infinity when `usedDisk > 0` (above) and NaN or
      -Infinity otherwise (not above). */
  predicate AboveWarningLevel(usedDisk: int, totalDisk: int)
    ensures totalDisk != 0 ==>
      (AboveWarningLevel(usedDisk, totalDisk) <==> UsagePercent(usedDisk, totalDisk) > 85.0)
    ensures totalDisk == 0 ==> (AboveWarningLevel(usedDisk, totalDisk) <==> usedDisk > 0)
  {
    if totalDisk > 0 then
      PercentTimesTotal(usedDisk as real, totalDisk as real);
      ThresholdPositiveTotal(UsagePercent(usedDisk, totalDisk), usedDisk as real, totalDisk as real);
      usedDisk * 100 > 85 * totalDisk
    else if totalDisk < 0 then
      PercentTimesTotal(usedDisk as real, totalDisk as real);
      ThresholdNegativeTotal(UsagePercent(usedDisk, totalDisk), usedDisk as real, totalDisk as real);
      usedDisk * 100 < 85 * totalDisk
    else
      usedDisk > 0
  }

  lemma ThresholdPositiveTotal(p: real, u: real, t: real)
    requires t > 0.0 && p * t == u * 100.0
    ensures p > 85.0 <==> u * 100.0 > 85.0 * t
  {
    ScaleByPositive(p, 85.0, t);
  }

  lemma ThresholdNegativeTotal(p: real, u: real, t: real)
    requires t < 0.0 && p * t == u * 100.0
    ensures p > 85.0 <==> u * 100.0 < 85.0 * t
  {
    ScaleByPositive(85.0, p, -t);
    assert p * -t == -(p * t) && 85.0 * -t == -(85.0 * t);
  }

  /** The percentage times the total gives back a hundred times the usage. */
  lemma PercentTimesTotal(u: real, t: real)
    requires t != 0.0
    ensures (u / t) * 100.0 * t == u * 100.0
  {
    assert (u / t) * t == u;
    assert (u / t) * 100.0 * t == ((u / t) * t) * 100.0;
  }

  /** Multiplying both sides by a positive factor keeps a strict order. */
  lemma ScaleByPositive(x: real, y: real, k: real)
    requires k > 0.0
    ensures x > y <==> x * k > y * k
  {
    assert x * k - y * k == (x - y) * k;
    if x > y {
      assert (x - y) * k > 0.0;
    } else {
      assert (y - x) * k >= 0.0;
    }
  }

  // ---------------------------------------------------------------------------
  // Status rules
  // ---------------------------------------------------------------------------

  /** The status a newly added server gets: never Offline, Warning exactly when
      its usage is above 85%. */
  function AddedStatus(usedDisk: int, totalDisk: int): (s: Status)
    ensures s != Offline
    ensures s == Warning <==> AboveWarningLevel(usedDisk, totalDisk)
  {
    if AboveWarningLevel(usedDisk, totalDisk) then Warning else Online
  }

  /** The record `addServer` appends, given the id it generated. */
  function NewServerRecord(id: string, input: NewServer): (s: Server)
    ensures s.id == id && s.name == input.name && s.ipAddress == input.ipAddress
    ensures s.totalDisk == input.totalDisk && s.usedDisk == input.usedDisk
    ensures s.status != Offline && (s.status == Warning <==> AboveWarningLevel(input.usedDisk, input.totalDisk))
  {
    Server(id, input.name, AddedStatus(input.usedDisk, input.totalDisk),
           input.totalDisk, input.usedDisk, input.ipAddress)
  }

  /** The status a server gets on load, given the outcome of its reachability
      draw. The status it had before is not consulted. */
  function LoadStatus(server: Server, reachable: bool): (s: Status)
    ensures s == Offline <==> server.ipAddress == OfflineSentinel || !reachable
    ensures s == Warning <==>
      server.ipAddress != OfflineSentinel && reachable && AboveWarningLevel(server.usedDisk, server.totalDisk)
    ensures s == Online <==>
      server.ipAddress != OfflineSentinel && reachable && !AboveWarningLevel(server.usedDisk, server.totalDisk)
  {
    if server.ipAddress == OfflineSentinel then Offline
    else
      var newStatus := if reachable then Online else Offline;
      if newStatus == Online && AboveWarningLevel(server.usedDisk, server.totalDisk) then Warning
      else newStatus
  }

  /** Two records that agree on every field except perhaps the status. */
  predicate SameExceptStatus(a: Server, b: Server) {
    a.(status := Online) == b.(status := Online)
  }

  /** The list after load: every server, in the same order, with its status
      recomputed from the `i`-th reachability draw `reachable(i)`. */
  function RecomputeStatuses(servers: seq<Server>, reachable: nat -> bool): (r: seq<Server>)
    ensures |r| == |servers|
    ensures forall i :: 0 <= i < |r| ==> SameExceptStatus(r[i], servers[i])
    ensures forall i :: 0 <= i < |r| ==> r[i].status == LoadStatus(servers[i], reachable(i))
    ensures forall i :: 0 <= i < |r| && servers[i].ipAddress == OfflineSentinel ==> r[i].status == Offline
    ensures forall i :: 0 <= i < |r| && servers[i].ipAddress != OfflineSentinel && !reachable(i) ==>
      r[i].status == Offline
    ensures forall i :: 0 <= i < |r| && servers[i].ipAddress != OfflineSentinel && reachable(i) ==>
      (r[i].status == Warning <==> AboveWarningLevel(servers[i].usedDisk, servers[i].totalDisk)) &&
      r[i].status != Offline
  {
    seq(|servers|, i requires 0 <= i < |servers| => servers[i].(status := LoadStatus(servers[i], reachable(i))))
  }

  /** Recomputation does not depend on the statuses the list held before. */
  lemma RecomputeIgnoresOldStatus(a: seq<Server>, b: seq<Server>, reachable: nat -> bool)
    requires |a| == |b|
    requires forall i :: 0 <= i < |a| ==> SameExceptStatus(a[i], b[i])
    ensures RecomputeStatuses(a, reachable) == RecomputeStatuses(b, reachable)
  {
    var ra, rb := RecomputeStatuses(a, reachable), RecomputeStatuses(b, reachable);
    forall i | 0 <= i < |a| ensures ra[i] == rb[i] {
      assert SameExceptStatus(a[i], b[i]);
      assert a[i].ipAddress == b[i].ipAddress && a[i].usedDisk == b[i].usedDisk && a[i].totalDisk == b[i].totalDisk;
      assert LoadStatus(a[i], reachable(i)) == LoadStatus(b[i], reachable(i));
    }
  }

  /** Loading a list that was just loaded, with the same draws, changes nothing. */
  lemma RecomputeIdempotent(servers: seq<Server>, reachable: nat -> bool)
    ensures RecomputeStatuses(RecomputeStatuses(servers, reachable), reachable) == RecomputeStatuses(servers, reachable)
  {
    RecomputeIgnoresOldStatus(RecomputeStatuses(servers, reachable), servers, reachable);
  }

  /** A server added with a non-sentinel address keeps its status when the list
      is reloaded and it is reachable; one added with the sentinel address is
      Online or Warning until the next load, whatever its draw, turns it Offline. */
  lemma AddedStatusSurvivesReload(id: string, input: NewServer)
    ensures input.ipAddress != OfflineSentinel ==>
      LoadStatus(NewServerRecord(id, input), true) == NewServerRecord(id, input).status
    ensures input.ipAddress == OfflineSentinel ==>
      NewServerRecord(id, input).status != Offline &&
      forall reachable :: LoadStatus(NewServerRecord(id, input), reachable) == Offline
  {
  }

  /** With every draw reachable, the seeded list loads as Warning, Online,
      Warning, Online, Offline: PROD-WEB-01 (90%) turns from Online to Warning
      and BACKUP-01 is Offline through its sentinel address. */
  lemma InitialServersLoadReachable()
    ensures var r := RecomputeStatuses(InitialServers, _ => true);
      r[0].status == Warning && r[1].status == Online && r[2].status == Warning &&
      r[3].status == Online && r[4].status == Offline
  {
    var r := RecomputeStatuses(InitialServers, _ => true);
    assert InitialServers[0].ipAddress != OfflineSentinel;
    assert InitialServers[1].ipAddress != OfflineSentinel;
    assert InitialServers[2].ipAddress != OfflineSentinel;
    assert InitialServers[3].ipAddress != OfflineSentinel;
  }

  // ---------------------------------------------------------------------------
  // Delete by id
  // ---------------------------------------------------------------------------

  /** The list without the records whose id is `id`, in the original order. */
  function RemoveById(servers: seq<Server>, id: string): (r: seq<Server>)
    ensures |r| <= |servers|
    ensures forall s :: s in r <==> s in servers && s.id != id
  {
    if servers == [] then []
    else if servers[0].id != id then [servers[0]] + RemoveById(servers[1..], id)
    else RemoveById(servers[1..], id)
  }

  /** Filtering distributes over concatenation, so the survivors keep their
      relative order. */
  lemma {:induction false} RemoveByIdConcat(a: seq<Server>, b: seq<Server>, id: string)
    ensures RemoveById(a + b, id) == RemoveById(a, id) + RemoveById(b, id)
  {
    if a == [] {
      assert a + b == b;
    } else {
      assert (a + b)[1..] == a[1..] + b;
      RemoveByIdConcat(a[1..], b, id);
    }
  }

  /** Deleting an id no record carries leaves the list unchanged. */
  lemma {:induction false} RemoveByIdAbsent(servers: seq<Server>, id: string)
    requires forall s :: s in servers ==> s.id != id
    ensures RemoveById(servers, id) == servers
  {
    if servers != [] {
      assert servers[0] in servers;
      forall s | s in servers[1..] ensures s.id != id { assert s in servers; }
      RemoveByIdAbsent(servers[1..], id);
      assert [servers[0]] + servers[1..] == servers;
    }
  }

  /** Deleting the same id twice is the same as deleting it once. */
  lemma RemoveByIdIdempotent(servers: seq<Server>, id: string)
    ensures RemoveById(RemoveById(servers, id), id) == RemoveById(servers, id)
  {
    RemoveByIdAbsent(RemoveById(servers, id), id);
  }

  /** The number of records deleted is the number carrying that id. */
  function CountId(servers: seq<Server>, id: string): nat {
    if servers == [] then 0
    else (if servers[0].id == id then 1 else 0) + CountId(servers[1..], id)
  }

  lemma {:induction false} RemoveByIdLength(servers: seq<Server>, id: string)
    ensures |RemoveById(servers, id)| == |servers| - CountId(servers, id)
  {
    if servers != [] {
      RemoveByIdLength(servers[1..], id);
    }
  }

  // ---------------------------------------------------------------------------
  // The store
  // ---------------------------------------------------------------------------

  /** The list a load starts from: the persisted copy, or the default list when
      nothing is persisted. */
  function LoadSource(stored: Option<seq<Server>>): (r: seq<Server>)
    ensures stored.Some? ==> r == stored.value
    ensures stored.None? ==> r == InitialServers
  {
    match stored
    case Some(list) => list
    case None => InitialServers
  }

  /** The hook's state: the in-memory list, the persisted copy (None when the
      storage key is absent) and whether loading has finished. */
  class ServerStore {
    var servers: seq<Server>
    var stored: Option<seq<Server>>
    var isLoaded: bool

    /** The persisted copy holds exactly the in-memory list. */
    predicate Synced()
      reads this
    {
      stored == Some(servers)
    }

    /** A fresh store: an empty list, not yet loaded, over the given storage. */
    constructor (storage: Option<seq<Server>>)
      ensures servers == [] && stored == storage && !isLoaded
    {
      servers := [];
      stored := storage;
      isLoaded := false;
    }

    /** The load effect. `fails` says that reading, parsing or seeding the
        storage raised; `reachable(i)` is the reachability draw of the `i`-th
        server. */
    method Load(fails: bool, reachable: nat -> bool)
      modifies this
      ensures isLoaded
      ensures fails ==> servers == InitialServers && stored == old(stored)
      ensures !fails && old(stored).None? ==>
        stored == Some(InitialServers) && servers == RecomputeStatuses(InitialServers, reachable)
      ensures !fails && old(stored).Some? ==>
        stored == old(stored) && servers == RecomputeStatuses(old(stored).value, reachable)
      ensures !fails ==>
        stored == Some(LoadSource(old(stored))) && servers == RecomputeStatuses(LoadSource(old(stored)), reachable)
    {
      if fails {
        servers := InitialServers;
      } else {
        var loaded := LoadSource(stored);
        if stored.None? {
          stored := Some(InitialServers);
        }
        servers := RecomputeStatuses(loaded, reachable);
      }
      isLoaded := true;
    }

    /** Replace the in-memory list and write it to storage; `saveFails` says
        that the write raised, in which case only the in-memory list changes. */
    method UpdateStorage(updated: seq<Server>, saveFails: bool)
      modifies this
      ensures servers == updated && isLoaded == old(isLoaded)
      ensures stored == if saveFails then old(stored) else Some(updated)
      ensures !saveFails ==> Synced()
    {
      servers := updated;
      if !saveFails {
        stored := Some(updated);
      }
    }

    /** Append one server with the given id, copying the input's fields and
        deriving its status from its usage. */
    method AddServer(id: string, input: NewServer, saveFails: bool)
      modifies this
      ensures |servers| == |old(servers)| + 1
      ensures servers[..|old(servers)|] == old(servers)
      ensures servers[|old(servers)|] == NewServerRecord(id, input)
      ensures var s := servers[|old(servers)|];
        s.id == id && s.name == input.name && s.ipAddress == input.ipAddress &&
        s.totalDisk == input.totalDisk && s.usedDisk == input.usedDisk
      ensures var s := servers[|old(servers)|];
        s.status != Offline && (s.status == Warning <==> AboveWarningLevel(input.usedDisk, input.totalDisk))
      ensures isLoaded == old(isLoaded)
      ensures stored == if saveFails then old(stored) else Some(servers)
      ensures !saveFails ==> Synced()
    {
      var newServer := NewServerRecord(id, input);
      var updated := servers + [newServer];
      assert updated[..|servers|] == servers;
      UpdateStorage(updated, saveFails);
    }

    /** Remove every server whose id is `id`. */
    method DeleteServer(id: string, saveFails: bool)
      modifies this
      ensures servers == RemoveById(old(servers), id)
      ensures forall s :: s in servers <==> s in old(servers) && s.id != id
      ensures (forall s :: s in old(servers) ==> s.id != id) ==> servers == old(servers)
      ensures isLoaded == old(isLoaded)
      ensures stored == if saveFails then old(stored) else Some(servers)
      ensures !saveFails ==> Synced()
    {
      var updated := RemoveById(servers, id);
      if forall s :: s in servers ==> s.id != id {
        RemoveByIdAbsent(servers, id);
      }
      UpdateStorage(updated, saveFails);
    }
  }
}
