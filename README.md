# Server Sentinel: server-list store and navigation matching

A Dafny model of two small pieces of the Server Sentinel dashboard.

- **The server-list store** (`use-servers.ts`). The hook keeps an in-memory list of `Server` records, a persisted copy of that list and an `isLoaded` flag.
  - On mount it loads the persisted list, or seeds storage with the default list when nothing is stored.
  - It then recomputes every server's status. The address `192.168.1.100` is always Offline. Any other server is Offline when its reachability draw fails, Warning when its disk usage is above 85%, and Online otherwise.
  - `addServer` appends one record whose status comes from the usage rule alone.
  - `deleteServer` filters out the records with a given id.
  - Both write the new list back to storage.
- **Navigation matching** (`app-layout.tsx`). There is a fixed table of five sidebar items.
  - An item is active on its exact href. Every item except Dashboard is also active on any path its href prefixes.
  - The header shows the label of the first item whose href prefixes the path.

Module layout:

- `server_data.dfy`: `Wrappers` (an `Option` type) and `ServerData` (the `Server` record, its `Status`, and the default list `InitialServers`).
- `use_servers.dfy`: `UseServers`.
  - Pure functions: the usage threshold, the add and load status rules, the status recomputation over a list, and the delete filter.
  - The lemmas about these functions.
  - The class `ServerStore`, with fields `servers`, `stored` and `isLoaded`, and methods `Load`, `UpdateStorage`, `AddServer` and `DeleteServer`.
- `app_layout.dfy`: `AppLayout`, with the item table, `IsActive`, the first-prefix search behind the header title, and their lemmas. The item field `label` is called `caption` here because `label` is a Dafny keyword.

Modelling choices:

- **The usage test `(usedDisk / totalDisk) * 100 > 85`** is `AboveWarningLevel`, which uses integer cross-multiplication.
  - A positive total gives `usedDisk*100 > 85*totalDisk`.
  - A negative total flips the inequality.
  - A zero total follows JavaScript: the quotient is `Infinity` exactly when `usedDisk > 0`, and `NaN > 85` is false. The source does not guard this case, so neither does the model.
  - The contract of `AboveWarningLevel` proves that this test agrees with the real-number percentage whenever the total is non-zero.
- **The reachability draw** (`Math.random() > 0.1`) is the parameter `reachable: nat -> bool`. `reachable(i)` is the draw for the `i`-th server.
- **The persisted copy** is `stored: Option<seq<Server>>`. `None` means the storage key is absent.
- **Load failures.** Reading the key, parsing it or seeding storage can raise. This is the flag `fails` of `Load`. The source's catch then shows `initialServers` unchanged and leaves storage as it was.
- **Save failures.** A failed write in `updateStorage` is the flag `saveFails`. The source catches it after it has already replaced the in-memory list. So the persisted copy equals the in-memory list after `addServer` and `deleteServer` only when the write succeeds.
- **The new server's id** is a parameter of `AddServer`.

## Model

| member | source | states |
|---|---|---|
| ServerData.InitialServers | src/lib/mock-data.ts:29-35 | the five default records, field for field: ids `srv-001` to `srv-005`, names, stored statuses, total and used disk, and addresses |
| UseServers.AboveWarningLevel | src/hooks/use-servers.ts:32-34 | the usage test of load and of add (line 62). It is a sign-split cross-multiplication: `used*100 > 85*total` for a positive total, the flipped inequality for a negative one. For a non-zero total it holds exactly when the real percentage `(used/total)*100` exceeds 85. For a zero total it follows JavaScript (`Infinity` above, `NaN` or `-Infinity` not): it holds exactly when `used > 0` |
| UseServers.NewServerRecord | src/hooks/use-servers.ts:65-72 | the added record carries the given id and copies name, address, total and used disk verbatim; its status is never Offline and is Warning exactly when the usage test holds |
| UseServers.AddedStatus | src/hooks/use-servers.ts:62-63 | an added server's status is never Offline, and it is Warning exactly when usage is above 85% |
| UseServers.LoadStatus | src/hooks/use-servers.ts:25-40 | on load: Offline exactly when the address is the sentinel or the draw fails; Warning exactly when the address is not the sentinel, the draw succeeds and usage is above 85%; Online exactly when those hold but usage is not above 85% |
| UseServers.RecomputeStatuses | src/hooks/use-servers.ts:24-41 | the loaded list has the same length and order, every record keeps all its fields except the status, and each status is that server's load status: the sentinel is Offline whatever the draw, an unreachable server is Offline, a reachable one is Warning exactly when above 85% and never Offline |
| UseServers.RecomputeIgnoresOldStatus | src/hooks/use-servers.ts:29-40 | two lists that differ only in statuses load to the same list, because the previous status is read but never used |
| UseServers.RecomputeIdempotent | src/hooks/use-servers.ts:24-41 | reloading a just-loaded list with the same draws gives the same list |
| UseServers.AddedStatusSurvivesReload | src/hooks/use-servers.ts:25-38 | a server added with a non-sentinel address keeps its add-time status on a reachable reload; one added with the sentinel address is Online or Warning when added and Offline after any reload |
| UseServers.InitialServersLoadReachable | src/lib/mock-data.ts:29-35 | with every draw reachable, the default list loads as Warning, Online, Warning, Online, Offline, so PROD-WEB-01 (90% used) changes from its stored Online to Warning |
| UseServers.RemoveById | src/hooks/use-servers.ts:78 | the filtered list is no longer than the input, and a record is in it exactly when it is in the input and has a different id |
| UseServers.RemoveByIdConcat | src/hooks/use-servers.ts:78 | filtering distributes over concatenation, so the surviving records keep their original relative order |
| UseServers.RemoveByIdAbsent | src/hooks/use-servers.ts:78 | deleting an id that no record carries leaves the list unchanged |
| UseServers.RemoveByIdIdempotent | src/hooks/use-servers.ts:78 | deleting the same id twice gives the same list as deleting it once |
| UseServers.RemoveByIdLength | src/hooks/use-servers.ts:78 | the list shrinks by exactly the number of records carrying that id |
| UseServers.ServerStore.constructor | src/hooks/use-servers.ts:10-11 | a new store has an empty list, is not loaded, and sees the given storage |
| UseServers.ServerStore.Load | src/hooks/use-servers.ts:13-50 | afterwards the store is loaded in every case. On failure the list is the default list with no recomputation and storage is untouched. With empty storage, storage is seeded with the default list and the list is its recomputation. Otherwise storage is kept and the list is the recomputed stored list. Without failure, both cases read as: storage holds the load source (the stored list, else the default list) and the list is its recomputation |
| UseServers.ServerStore.UpdateStorage | src/hooks/use-servers.ts:52-59 | the in-memory list becomes the given list. The persisted copy becomes that list, or is left as it was when the write fails. The loaded flag is unchanged |
| UseServers.ServerStore.AddServer | src/hooks/use-servers.ts:61-75 | exactly one record is appended at the end and earlier records are unchanged and in order. It carries the given id and copies name, address, total and used disk verbatim. Its status is never Offline and is Warning exactly when above 85%. After a successful write the persisted copy equals the list |
| UseServers.ServerStore.DeleteServer | src/hooks/use-servers.ts:77-80 | the list becomes the id filter of the old list: every record with that id is gone, the others stay, and an absent id changes nothing. After a successful write the persisted copy equals the list |
| AppLayout.NavItems | src/components/app-layout.tsx:38-44 | the five sidebar entries in display order, each an href and a label: Dashboard, Recommendations, Actions, Logs, Settings |
| AppLayout.IsActive | src/components/app-layout.tsx:67 | an item is active on its exact href or, unless it is the Dashboard item, on any path its href is a raw prefix of; an active item's href always prefixes the path, and the Dashboard item is active exactly on its own href |
| AppLayout.ActiveCharacterization | src/components/app-layout.tsx:67 | every item is active on its own href; Dashboard is active exactly on `/dashboard`; every other item is active exactly when its href is a raw prefix of the path |
| AppLayout.SamplePaths | src/components/app-layout.tsx:67 | `/logs/2` and `/logsx` both activate Logs, and `/dashboard/x` does not activate Dashboard |
| AppLayout.HrefsPrefixFree | src/components/app-layout.tsx:38-44 | no href in the table is a prefix of a different one |
| AppLayout.AtMostOnePrefixMatch | src/components/app-layout.tsx:38-44 | at most one href of the table is a prefix of any given path |
| AppLayout.AtMostOneActive | src/components/app-layout.tsx:67 | at most one item is active for any path |
| AppLayout.FirstPrefixMatch | src/components/app-layout.tsx:91 | the search returns the index of an item whose href prefixes the path and before which no href does; it returns nothing exactly when no href prefixes the path |
| AppLayout.HeaderTitle | src/components/app-layout.tsx:91 | the title is the label of the first item, in table order, whose href prefixes the path, and it is absent exactly when no href does |
| AppLayout.ActiveItemIsTitle | src/components/app-layout.tsx:91 | when an item is active, the header title is that item's label |
| AppLayout.TitleWithoutActiveItem | src/components/app-layout.tsx:91 | a title is shown while no item is active exactly on the paths that strictly extend `/dashboard`, and that title is "Dashboard" |
| AppLayout.DashboardSubpathDisagrees | src/components/app-layout.tsx:91 | for `/dashboard/x` the title is "Dashboard" but no item is active |

## Left out

- Browser storage and JSON encoding: the persisted copy is an optional list of records. Stored values that parse to something other than a list of records are outside the model. Some of them raise during the status recomputation and reach the catch, such as `null`, `{}` or `[null]`. Others, such as `[{}]` or `[1]`, load without raising and give records with undefined fields. The model has no such records and treats every such value as a load failure (`fails`). The empty string, which the source treats as absent, cannot come from serialising a list, so it is not represented.
- Randomness: the reachability draw is a parameter, and the model makes no claim about how often it fails.
- Id generation from the clock and `Math.random`: the id is a parameter of `AddServer`. The source does not guarantee unique ids, and the model does not claim they are unique.
- Floating point: disk sizes are integers. Fractional sizes and rounding exactly at the 85% boundary are not modelled. `AboveWarningLevel` gives the exact real-number outcome, together with the JavaScript outcome for a zero total.
- React scheduling: state updates take effect at once and calls are sequential. Stale closures over `servers`, and running the load effect more than once, are not modelled.
- Console logging in the two catch blocks has no effect on state and is dropped.
- Rendering: all JSX, icons, the sidebar chrome and the user dropdown are not part of this model. Item icons are omitted from `NavItem`.
- The AI recommendation flow (`src/ai/flows/recommend-safe-deletions.ts`) and its server action (`src/app/_actions/recommendations.ts`) are not part of this model. They are a prompt and a call to a hosted language model, with no checkable logic.
- The `recommendations` and `logs` constants of `src/lib/mock-data.ts` are static display data and are not part of this model.
- The simulated cleanup action (`src/app/(app)/actions/winrm-actions.ts`) and the pages that call it are not part of this model. It lies outside the two components modelled here.
