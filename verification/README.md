# dnsaur, verified

A Dafny model of the parts of dnsaur where a mistake would be silent: configuration sync
between a main and its replicas, the routed answer cache, DHCP configuration and its
engine, the encrypted listeners, and a few smaller machines (attempt limiter, pairing
codes, zone PATCH, multi-key settings writes, suffix walks). Code that updates state in
place is modelled as classes and methods with loops; protocols between concurrent parties
are state machines whose runs are sequences of actions; what the code promises is proved of
every input, every run or every reachable state.

Check everything with `dafny verify dfyconfig.toml`.

| module | what it holds |
|---|---|
| `Names`, `Routing` | dotted names, the three suffix walks, the conditional-forwarding table |
| `Cache`, `Coherence` | the LRU cache with its epoch; cache and routing table as a concurrent protocol |
| `Schema`, `Import`, `Store`, `RoundTrip` | the synced tables; `ImportBundle` statement by statement; what import and export make of each other |
| `Sync`, `Pull`, `Replica` | mains, export and replica as a step system; `Validate`, `DeriveZones` and the import as a step of it; one box's `PullOnce` on its own database |
| `Subnets`, `Labels`, `Dhcp` | prefixes as intervals; hostname labels; scopes, reservations and their handlers |
| `Leases`, `Manager` | the lease table and its indexes; the engine manager against its history |
| `Listeners` | the DoT and DoH reconciler and the sockets it binds |
| `Limiter`, `Pairing`, `ZonePatch`, `Settings` | the smaller machines |

## What turned out not to hold

Where a property fails of the code, the code is kept, the failing family is exhibited, and
the exact condition is proved.

- An import goes through if and only if the bundle's references are its own, no row both
  boxes hold names (on the replica) a parent the main dropped, and no built-in zone that
  stays has the name of a bundle zone (`Store.SqlStore.ImportBundle`). The prune runs before
  the upsert that would re-point a kept client, so moving a client off a group and deleting
  the group is an edit no pull applies (`RoundTrip.MovedClientWedges`); a user's own zone
  named like a built-in is another (`RoundTrip.OwnLocalhostWedges`).
- So a change on the main does not always arrive. The replica's own steps reach level books
  if and only if that condition holds of its configuration and the main's
  (`Sync.PullArrivesIff`); otherwise they change nothing until the main writes again
  (`Sync.WedgedChangesNothing`, and `Replica.MovedClientNeverArrives` for the moved client).
- Books that say "level" can be wrong in four ways, each with its exact condition.
  Re-pointed to an earlier main while another's bundle is being applied, they are wrong
  between the import and the bookkeeping writes, and for good if the process dies there
  (`Sync.OnCourseIff`, `Sync.RepointedMidPull`). A main the books name is followed again over
  a local edit no idle pull has seen (`Sync.FollowSafeIff`, `Sync.UnseenPromotion`). The first
  or the second bookkeeping write is lost, and one main's number stands beside another's name
  (`Sync.LostVersionIff`, `Sync.LostPeerIff`, `Sync.LostPeerWrite`).
- `applySettings` purges before it swaps the forwarder. An answer fetched between the two is
  stored under the new epoch and agrees with the new table exactly when both tables route
  its name alike (`Coherence.SettingsLeakIff`, `Coherence.SettingsLeak`,
  `Coherence.SettingsLeakIsWrong`). A swap is harmless if and only if that holds of every
  stored name and every answer on its way (`Coherence.SwapSafeIff`). `ReloadZones` installs
  first and has no such window.
- `BumpSerial` stamps `modified_at` with the clock and not past the stamp it replaces. A step
  that gives the row a stamp under which a handler in flight read another row lets that
  handler's next write lose a bump, and any other step leaves every next write harmless
  (`ZonePatch.ClearIff`, an if and only if, for handlers not in flight through 2^32 bumps). No
  run without such a step loses anything (`ZonePatch.NoLostPatch`), and what a stale write
  costs is exact (`ZonePatch.StaleWriteCosts`). A bump in the millisecond of the row's own
  stamp loses its serial to a PATCH in flight (`ZonePatch.SameMillisecondBump`); one that goes
  back loses a committed PATCH (`ZonePatch.BackwardBumpLosesPatch`).
- A poll that takes up a reconnect pays the debt off even when the configuration cannot be
  read or built, or the config-set fails without a verdict. No later poll then sends the
  engine anything until the configuration changes or the engine is lost again
  (`Manager.UnsentReconnect`).
- A settings body that replaces one valid certificate pair by another is refused exactly
  when the new certificate does not load with the old key
  (`Settings.ReplacedPairRefusedIff`): the comment on `settingsPhases` says the pair is only
  checked once both halves are present, but the certificate is judged against the stored
  key before the new key is in.
- `nameUnder` differs from label-wise ancestry on exactly one shape of name, a dot followed
  by the suffix itself (`Names.UnderIsAncestry`).
- The comment on `evictBuiltinCollisions` says the foreign key of `zone_records` does not
  cascade; migration 0004 declares ON DELETE CASCADE. The model follows the schema.

## Model

| member | source | states |
|---|---|---|
| Names.NameUnder | internal/cache/cache.go:130-140 | the byte test holds of a name exactly when some suffix is the name or sits behind a dot of it |
| Names.UnderIsAncestry | internal/cache/cache.go:130-140 | one suffix's byte test is label-wise ancestry, except for the name that is a dot and then the suffix |
| Names.UnderIsAncestryProper | internal/cache/cache.go:127-140 | on names without empty labels the byte test is exactly label-wise ancestry |
| Names.DomainSet.Add | internal/filter/domainset.go:20 | the set gains exactly the normalised domain |
| Names.NormalizeForgets | internal/filter/ruleset.go:70 | normalising forgets one trailing dot and the case of letters, and nothing else |
| Names.DomainSet.Match | internal/filter/domainset.go:24-39 | returns the most specific stored ancestor of the normalised query name, or none when there is none |
| Names.WalkIsMostSpecific | internal/filter/domainset.go:24-39 | peeling labels off the left reaches the most specific stored ancestor |
| Names.MostSpecificUnique | internal/filter/domainset.go:22-39 | at most one stored name is the most specific ancestor |
| Names.ReverseZoneFor | internal/zones/reverse.go:43-62 | the zone returned is the deepest listed one covering the reverse name, the relative name rejoins to the full name ("@" at the apex), and nothing is returned exactly when no zone covers it |
| Routing.ChangedSuffixes | internal/app/app.go:633-646 | lists each suffix in one table only, or with different upstreams in the two, once, and no other |
| Routing.RouteUnaffected | internal/app/app.go:626-656 | a name under no changed suffix is routed alike by both tables, for the forwarder's own most-specific lookup (internal/upstream/forwarder.go:247) |
| Routing.RoutedByMostSpecific | internal/upstream/forwarder.go:247-254 | a name goes to the upstreams of its longest claimed suffix, and to the defaults exactly when none claims it |
| Cache.InStepLength | internal/cache/cache.go:142-184 | the recency list holds each live key once: it is as long as the map is big |
| Cache.BackIsOldest | internal/cache/cache.go:176-183 | the back of the list is the least recently touched key |
| Cache.EvictDone | internal/cache/cache.go:176-183 | when evicting stops, what is left is the most recently touched entries, as many as fit |
| Cache.ListIsRecency | internal/cache/cache.go:142-184 | on every run the list is the live keys in the order met reading the finds and stores backwards, whatever was removed, evicted or purged meanwhile |
| Cache.Cache.RemoveLocked | internal/cache/cache.go:161-168 | map, list and touch times lose exactly that key together |
| Cache.Cache.Get | internal/cache/cache.go:142-159 | fresh, stale or missing by age, a hit is touched, an entry past the stale allowance is dropped |
| Cache.Cache.Put | internal/cache/cache.go:170-184 | refused after a purge; otherwise stored as the most recent, and only the least recently touched make room, never the new one |
| Cache.Cache.Purge | internal/cache/cache.go:104-125 | removes exactly the entries at or under a usable suffix, counts them, moves the epoch exactly when there is a usable suffix, and leaves the survivors their entries and touch times |
| Cache.SuffixesRead | internal/cache/cache.go:104-125 | the suffixes a purge goes by are those asked for, normalised, the empty ones left out |
| Coherence.StepKeepsInv | internal/cache/cache.go:253-331 | every step of lookups, stores, shared lookups, reloads, settings stagings and safe swaps keeps stored and in-flight routes true to the live table or about to be purged |
| Coherence.EntriesFollowTheTable | internal/app/app.go:1173-1187 | over every interleaving, outside a reload's install-to-purge window each stored answer came from the upstreams the live table names for its name |
| Coherence.CalmQueriesAreRoutedRight | internal/cache/cache.go:253-331 | a query begun with no reload in progress and overtaken by none is answered, fresh, stale or shared, by the upstreams the live table names |
| Coherence.LookupStores | internal/cache/cache.go:253-331 | a lookup nobody shares goes by the live table, is stored under its question and answers it, and changes no other entry |
| Coherence.LookupIsShared | internal/cache/cache.go:253-331 | a query joins an open lookup of its question and epoch, or is answered by a stored entry, without starting one |
| Coherence.ReloadDrops | internal/cache/cache.go:104-125 | an answer of an older epoch is not stored; a reload takes exactly the entries under a changed suffix and moves the epoch exactly when there is one |
| Coherence.SwapSafeIff | internal/app/app.go:803-820 | a settings swap leaves every entry right, and every put of a lookup under way, exactly when both tables route the stored names and those in flight alike |
| Coherence.SettingsLeakIff | internal/app/app.go:803-820 | a lookup dispatched between applySettings' purge and its swap leaves an entry that outlives the swap and is right exactly when both tables route it alike |
| Coherence.SettingsLeak | internal/app/app.go:803-820 | for every two tables and name, a run from an empty cache ends with the swap done, nothing left to purge, and an entry routed by the old table |
| Coherence.SettingsLeakIsWrong | internal/app/app.go:803-820 | for an empty table and one with a zone, that run ends with a wrong entry in the cache |
| Coherence.PurgeReadsChanged | internal/app/app.go:603-656 | purging the listed suffixes purges exactly the names under a changed suffix |
| Coherence.App.ReloadZones | internal/app/app.go:603-625 | on the cache itself: the new table is live, exactly the entries under a changed suffix go, and the epoch moves exactly when some suffix changed |
| Schema.ParkedInjective | internal/store/bundle.go:362-366 | two rows are never parked on the same sentinel |
| Import.PruneAll | internal/store/bundle.go:319-341 | the prunes, in order, all pass exactly when no kept row is stranded, and then each table holds its kept rows |
| Import.ParkingNeverClashes | internal/store/bundle.go:251-289 | no row-by-row stage of any parking statement breaks a unique index |
| Import.ParkAll | internal/store/bundle.go:362-366 | the parking statements never fail and leave every unique key of every row but built-in zones on its sentinel |
| Import.UpsertAll | internal/store/bundle.go:370-418 | one table's upserts fail exactly when a parent is missing or a row outside the bundle holds a key of it, and otherwise merge each row over what it lands on |
| Import.UpsertTables | internal/store/bundle.go:368-444 | all tables' upserts pass exactly when every parent is in the bundle and no table collides |
| Import.ImportTables | internal/store/bundle.go:309-444 | from any database at rest, whatever names, matchers, URLs, MACs or addresses rows trade, the tables import exactly unless a kept row is stranded, a parent is not in the bundle or a staying built-in has a bundle zone's name; then each holds the bundle's rows and the staying built-ins |
| Store.ImportSettings | internal/store/bundle.go:498-539 | afterwards the local keys are this box's, the others the bundle's |
| Store.Assign | internal/store/bundle.go:445-451 | the assignments go in exactly when they are distinct and name present groups and lists |
| Store.DropAnswered | internal/store/bundle.go:428-432 | records go of exactly the zones answered elsewhere |
| Store.SeedZones | internal/store/builtins.go:165-204 | existing zones stay; each missing built-in name exists afterwards, at an id nothing had, with its SOA made from the name, serial 1 and its apex NS |
| Store.SeedRecords | internal/store/builtins.go:226-261 | built-in zones gain exactly the content types they lacked; no other zone is touched |
| Store.SyncedOk | internal/store/bundle.go:309-444 | what the import leaves satisfies the table's unique keys |
| Store.SqlStore.ImportBundle | internal/store/bundle.go:299-490 | one transaction: it succeeds exactly on the stated condition, a failure changes nothing, and success leaves a consistent database related to the old one and the bundle by `Applied` |
| Store.SqlStore.ConfigExecN | internal/store/crud.go:28-106 | a write and one version move together, exactly when a row changed; otherwise nothing |
| RoundTrip.ExportBundle | internal/store/bundle.go:104-199 | lists every non-built-in row once under its id, the non-local settings and the assignments |
| RoundTrip.ExportIsWellFormed | internal/store/bundle.go:104-180 | an export of any consistent database is a bundle an import accepts as well formed |
| RoundTrip.ExportAfterImport | internal/store/bundle.go:104-180 | exporting what was imported gives the bundle's rows, ids, synced settings and assignments back |
| RoundTrip.LocalStateSurvives | internal/store/bundle.go:201-245 | transfer and refresh state of rows both boxes hold, and records of zones that still hold records, are kept and not copied |
| RoundTrip.ImportedRow | internal/store/bundle.go:201-444 | what an import makes of each bundle row, column by column: the bundle's definition over this box's local columns, the defaults of a new row, the reset of a zone answered elsewhere; and which zones keep their records |
| RoundTrip.NothingElse | internal/store/bundle.go:319-354 | nothing else is left: the bundle's rows alone and, of the zones, the built-ins that stay as they were and those seeded again |
| RoundTrip.BuiltinsStay | internal/store/bundle.go:343-354 | a built-in whose id the bundle does not use stays, with its records |
| RoundTrip.LocalKeysDoNotTravel | internal/store/bundle.go:36-60 | stats.watermark and every key that begins with instance., serve. or sync. are in no export, every other key is |
| RoundTrip.LocalKeysStay | internal/store/bundle.go:492-539 | through an import each of those keys keeps this box's value, there or not, and every other key takes the bundle's |
| RoundTrip.LocalSettingsSurvive | internal/store/bundle.go:492-517 | of the settings an import leaves, those keys are this box's and all others the bundle's |
| RoundTrip.EvictedComesBack | internal/store/bundle.go:469-477 | after an eviction every built-in name exists: in the bundle, as a built-in that stayed, or as one at an id above all bundle ids |
| RoundTrip.SecondImport | internal/store/bundle.go:299-490 | importing the same bundle again evicts nothing and changes only config_version |
| RoundTrip.SecondImportGoesThrough | internal/store/bundle.go:299-490 | after an import nothing is stranded and no name is taken, so the same bundle imports again |
| RoundTrip.MovedClientWedges | internal/store/bundle.go:319-341 | a consistent replica and a well-formed bundle, an ordinary edit apart, whose import is stranded |
| RoundTrip.OwnLocalhostWedges | internal/store/bundle.go:343-354 | a bundle zone whose name a staying built-in holds |
| Sync.StepKeepsInv | internal/confsync/replica.go:456-643 | every main write, export read, pull step, local edit, re-pointing and harmless lost write keeps the books and the half-read bundle true |
| Sync.DraftIsConfig | internal/store/bundle.go:98-180 | reads that began at the version the main still has add up to the main's configuration, rules read group by group and assignments kept for the lists read |
| Sync.ReplicaAgreement | internal/confsync/replica.go:510-620 | whenever applied_peer is the followed main and applied_version its current version, the synced configuration apart from zones equals the main's, in every reachable state but those where a pull of another main is between its import and its last bookkeeping write |
| Sync.OnCourseIff | internal/confsync/replica.go:602-617 | that exception is exact: where the books say level they are right beside all mains exactly when the cycle writing its books writes them about the followed main |
| Sync.RepointedMidPull | internal/confsync/replica.go:602-617 | for any two mains importable in turn, a run from the start: pull one, fetch the other, point back, import; the books say level with the first, the configuration is the second's, and stays so if the process dies |
| Sync.SkipIsSound | internal/confsync/replica.go:578-582 | a probe that ends the cycle with nothing to do found this box holding what the main has, unless that main is no longer followed and the box was edited since |
| Sync.ProbeSkipsIff | internal/confsync/replica.go:578-582 | a probe ends the cycle exactly when the books name that main at the version it has |
| Sync.LevelDoesNothing | internal/confsync/replica.go:546-583 | no run of a level replica's own steps imports anything or touches its books |
| Sync.PullArrivesIff | internal/confsync/replica.go:546-643 | from every reachable idle state whose books are behind, the replica's own steps reach level books exactly when the store can import the main's bundle |
| Sync.WedgedChangesNothing | internal/confsync/replica.go:584-604 | when it cannot, every run of the replica's own steps leaves configuration, built-ins and books unchanged |
| Sync.EditWedges | internal/confsync/replica.go:602-604 | from any level state, one main write that cannot be imported is never applied and never skipped |
| Sync.UnseenPromotion | internal/confsync/replica.go:468-481 | from every level state: promote, edit, follow again before an idle pull; the books say level and the configuration is whatever was typed |
| Sync.FollowSafeIff | internal/confsync/replica.go:199-229 | at every point of a cycle, following a main is safe beside all mains exactly when nothing was edited since the import, it is followed already, the books will not name it, or a pull of it under way has seen its number passed |
| Sync.LostVersionIff | internal/confsync/replica.go:612-617 | a lost applied_version write is safe beside all mains exactly when the number left behind is below the one imported, or equal to it with nothing edited or the main followed all along |
| Sync.LostPeerIff | internal/confsync/replica.go:612-617 | after a lost applied_peer write, following a main is safe beside all mains exactly when the books do not name it, or it is the one just imported with nothing edited or followed all along |
| Sync.LostPeerWrite | internal/confsync/replica.go:612-617 | the run: the second write is lost, another main at the same number is followed again and taken for applied while the configuration differs |
| Pull.Validate | internal/confsync/bundle.go:47-98 | accepts exactly the bundles of this format whose clients, rules and assignments name carried groups, whose zones are not internal and name carried keys, and whose settings are not local |
| Pull.LocalKeyRefused | internal/confsync/bundle.go:47-98 | a bundle of another format than 1, or with one of those keys, is refused |
| Pull.ValidateLeaves | internal/confsync/bundle.go:41-98 | what a validated bundle may still lack: a reservation's scope, and the assignments' own consistency |
| Pull.DeriveZones | internal/confsync/bundle.go:25-39 | a primary, however spelled, comes out as a secondary of the main under the sync key with every other column its own; any other zone comes out as it is; no primary and no built-in is left |
| Pull.DerivedAgain | internal/confsync/bundle.go:14-39 | deriving again changes nothing; ids and unique keys are the main's |
| Pull.ImportableIff | internal/confsync/replica.go:588-604 | a bundle passes Validate and, its zones derived, the store's import condition exactly when the protocol's guard holds of the two configurations, the zones and the built-ins |
| Pull.ImportIsTheStep | internal/confsync/replica.go:602-604 | after a successful import of a bundle without local keys, the box's synced configuration is exactly what the bundle carries |
| Replica.ExportCarries | internal/store/bundle.go:104-199 | an undisturbed export carries the main's configuration and zones, and no local key |
| Replica.MainsAreSound | internal/store/bundle.go:98-180 | consistent databases are sound mains: every rule has its group and every assignment its list |
| Replica.Replica.constructor | internal/confsync/replica.go:468-481 | a box that follows nobody, beside any consistent mains, is an initial state of the protocol |
| Replica.Replica.Point | internal/confsync/replica.go:199-229 | following or promoting moves the peer alone, and is a step that keeps the invariant wherever it is safe |
| Replica.ImportReseeds | internal/store/bundle.go:343-354 | through an import the built-ins that stay are kept, and none afterwards has an id or a name of a bundle zone |
| Replica.Replica.Take | internal/confsync/replica.go:584-604 | fetch, Validate, version comparison, DeriveZones and import: goes in exactly when the versions agree and the guard holds, and then every zone of the main is here as derived; else the database is untouched |
| Replica.Replica.PullOnce | internal/confsync/replica.go:456-643 | an idle cycle forgets what was applied as far as its writes succeed; one that applies ends with the main's configuration, its zones derived, and the books it could write; any other changes nothing; with both writes made the books are level afterwards exactly when they were or it applied; each cycle whose lost writes are harmless is a run of the step system |
| Replica.MovedCarried | internal/store/bundle.go:104-199 | the bundle of the moved client is what its main exports |
| Replica.MovedIsReached | internal/confsync/replica.go:546-643 | a replica level with that main before the move is reachable |
| Replica.MovedClientNeverArrives | internal/store/bundle.go:319-341 | once the main moved the client and dropped its group, no run of the replica's own steps changes its configuration or makes the books level |
| Subnets.LastAddr | internal/store/dhcp.go:601-611 | filling the host bits byte by byte gives the prefix's largest address |
| Subnets.ContainsIsInterval | internal/store/dhcp.go:569-639 | a prefix contains exactly the addresses from its network to its broadcast address |
| Subnets.OverlapsIffShare | internal/store/dhcp.go:481-494 | two prefixes overlap exactly when some address lies in both |
| Labels.ValidHostLabel | internal/store/dhcp.go:726-743 | accepts exactly the labels of section 2.1 of RFC 1123: one to 63 letters, digits and hyphens, no hyphen at either end |
| Labels.SanitizeLabel | internal/dhcp/leases.go:271-295 | the loop computes the label the specification function names |
| Labels.SanitizedIsLabel | internal/dhcp/leases.go:271-295 | for every input the result is empty or a lower-case RFC 1123 label |
| Labels.SanitizedIs | internal/dhcp/leases.go:271-295 | each character becomes itself in lower case, one hyphen for a run of others after a letter or digit, or nothing; then the hyphens at both ends go and 63 characters stay, less the hyphens that end them |
| Labels.FixesLabels | internal/dhcp/leases.go:271-295 | every lower-case label is left alone |
| Labels.Idempotent | internal/dhcp/leases.go:271-295 | sanitising twice is sanitising once |
| Labels.GuardAdmitsIndexed | internal/dhcp/leases.go:80-94 | ByName's equality test admits exactly the labels some hostname is indexed under |
| Dhcp.ValidatePool | internal/store/dhcp.go:613-639 | accepts exactly pools strictly inside the subnet's two special addresses, start not above end |
| Dhcp.ValidateScope | internal/store/dhcp.go:387-496 | accepts exactly scopes that fit alone and, if enabled, share no address with another enabled one |
| Dhcp.ValidateReservation | internal/store/dhcp.go:498-551 | accepts exactly reservations inside the scope's subnet, off its gateway, with a MAC, a label or no name, and unlike every other of the scope |
| Dhcp.ScopeAcceptedIff | internal/store/dhcp.go:387-496 | a scope is accepted exactly when it has a name, a masked subnet, a pool inside it off its lowest and highest address (or serves only reservations), a gateway in it or none, a free name and, if serving, no address shared with another serving scope |
| Dhcp.ReservationAcceptedIff | internal/store/dhcp.go:498-551 | a reservation is accepted exactly when it has a MAC, an address in the subnet that is not the gateway's, a label or no name, and no other of the scope has its canonical MAC, its address or its name |
| Dhcp.Handlers.ScopeCreate | internal/api/dhcp_handlers.go:196-220 | accepted exactly on the rules and a free name; then the normalised row is added, else nothing changes |
| Dhcp.Handlers.ScopePatch | internal/api/dhcp_handlers.go:248-303 | accepted exactly on the rules, a free name and, when CIDR or gateway moves, no stranded reservation |
| Dhcp.Handlers.ScopeDelete | internal/api/dhcp_handlers.go:305-317 | the scope and its reservations go together |
| Dhcp.Handlers.ReservationCreate | internal/api/dhcp_handlers.go:331-370 | accepted exactly on the rules and free unique keys of the normalised row |
| Dhcp.Handlers.ReservationPatch | internal/api/dhcp_handlers.go:372-411 | the same for an existing row, in its own scope |
| Dhcp.Handlers.ReservationDelete | internal/api/dhcp_handlers.go:413-425 | exactly that row goes |
| Dhcp.Handlers.LeaseReserve | internal/api/dhcp_handlers.go:497-534 | a reservation from a lease, accepted exactly as its creation would be, its name sanitised and so never refused for not being a label |
| Dhcp.CreatedScope | internal/store/dhcp.go:242-320 | an accepted create adds exactly one scope, at the next id, with the request's columns, its four address columns trimmed |
| Dhcp.PatchedScope | internal/store/dhcp.go:242-330 | an accepted patch replaces exactly the scope of that id in the same way |
| Dhcp.CreatedReservation | internal/store/dhcp.go:364-370 | an accepted create adds exactly one row, at the next id, with the request's scope, hostname and comment, the canonical MAC and the trimmed address |
| Dhcp.PatchedReservation | internal/store/dhcp.go:372-381 | an accepted patch replaces exactly the row of that id in the same way |
| Dhcp.ReservedLease | internal/api/dhcp_handlers.go:497-534 | a reserved lease is stored with its MAC, address and sanitised name, and no comment |
| Dhcp.Deleted | internal/api/dhcp_handlers.go:305-425 | a delete takes exactly its row, and with a scope exactly its reservations; a refused one nothing |
| Dhcp.StepKeepsInv | internal/api/dhcp_handlers.go:196-425 | every request, accepted or not, keeps the whole invariant |
| Dhcp.AddressInOneScope | internal/store/dhcp.go:475-495 | after any sequence of requests no address lies in two enabled scopes |
| Dhcp.PoolsInside | internal/store/dhcp.go:402-410 | after any sequence of requests every pool given lies inside its subnet, off its network and broadcast addresses |
| Dhcp.ReservationsInside | internal/store/dhcp.go:509-527 | after any sequence of requests every reservation lies in its scope's subnet and is not its gateway |
| Dhcp.ReservationsDistinct | internal/store/dhcp.go:531-549 | after any sequence of requests MAC, address and non-empty name are unique within a scope |
| Leases.NewTable | internal/dhcp/leases.go:218-248 | byMAC and byName are right for these entries, byIP names the last entry of the address |
| Leases.TableFinds | internal/dhcp/leases.go:218-258 | byMAC and byName hold exactly the keys some entry has, and name the entry that is reserved if any claimant is, expires latest of its kind, and comes first of those |
| Leases.OutranksOrder | internal/dhcp/leases.go:250-258 | outranking is a strict weak order |
| Leases.Without | internal/dhcp/leases.go:182-209 | the address's lease goes, a pin stays with its expiry cleared, the indexes are as right as a polled table's, the read time is kept |
| Leases.WithoutAll | internal/dhcp/leases.go:182-209 | the same after any sequence of releases |
| Leases.ReleaseKeeps | internal/dhcp/leases.go:195-205 | an entry is there after a release exactly when it was before and was elsewhere or reserved |
| Leases.ReleasedOneByOne | internal/dhcp/leases.go:195-205 | a release works entry by entry in order: elsewhere kept, a pin kept with its expiry cleared, a lease dropped |
| Leases.ByName | internal/dhcp/leases.go:73-94 | finds something exactly when some entry's sanitised name and suffix are those asked for, and then the one that is reserved if any is, expires latest of its kind, and comes first of those |
| Leases.TableFrom | internal/dhcp/leases.go:104-180 | the rows are the active leases in order, then the reservations nothing has leased, in order, with each scope's suffix |
| Leases.LeaseOnce | internal/dhcp/leases.go:124-161 | every active parsable lease has exactly one row: its scope, address, canonical MAC and expiry, its own name or that of the reservation that pins it, reserved exactly when its MAC or address is pinned |
| Leases.OnlyActiveRows | internal/dhcp/leases.go:124-131 | no other lease has a row |
| Leases.ReservationOnce | internal/dhcp/leases.go:162-179 | a parsable reservation has no row of its own if a lease holds it, and otherwise exactly one, with its scope, address, MAC and name, reserved and without expiry |
| Leases.HeldIffPinned | internal/dhcp/leases.go:145-159 | a reservation counts as leased exactly when some active lease resolved to it |
| Leases.HeldIffLeased | internal/dhcp/leases.go:145-159 | a reservation counts as leased exactly when it is the last of its scope with some active lease's MAC or, no reservation having that, its address |
| Manager.MatchesNext | internal/dhcp/manager.go:654-741 | every event keeps hash, refusal, reachability, poll message and owed reconnect equal to what the history says |
| Manager.OwedNext | internal/dhcp/manager.go:669-691 | a reconnect is owed from the exchange that noticed it until a poll takes it up |
| Manager.Manager.Send | internal/dhcp/manager.go:348-370 | a config-set is recorded as given exactly when it was accepted or refused |
| Manager.Manager.ApplyIfChanged | internal/dhcp/manager.go:301-317 | skips exactly when the render equals the last configuration the engine accepted or refused |
| Manager.Manager.Poll | internal/dhcp/manager.go:445-489 | a poll that reads the leases takes up an owed reconnect with one unconditional render if the configuration can be read, otherwise renders only a change, and leaves none owed |
| Manager.PollConverges | internal/dhcp/manager.go:445-489 | a poll that reads leases and configuration leaves the engine last given exactly what that renders to, and sends nothing when it was, unless a reconnect is owed |
| Manager.PollRecords | internal/dhcp/manager.go:445-489 | a render that cannot be built is recorded on every poll; an unanswered, refused or cancelled poll sends nothing |
| Manager.UnsentReconnect | internal/dhcp/manager.go:461-487 | a reconnect taken up without a delivered render is followed by polls that send nothing while configuration and reachability stay; a delivered one got a verdict or found the engine gone |
| Manager.RefusalStands | internal/dhcp/manager.go:703-720 | a recorded refusal survives everything but a later verdict on a configuration |
| Manager.RepaidOnce | internal/dhcp/manager.go:682-691 | once repaid, nothing is owed until the engine is lost and found again |
| Listeners.RunConserves | internal/app/serve.go:96-133 | over every sequence of passes, failed starts, stops and reads, and shutdowns, the bound sockets are those held and those whose Shutdown failed |
| Listeners.NoLeak | internal/app/serve.go:532-563 | if every Shutdown succeeds the bound sockets are exactly those in dot and doh |
| Listeners.UnchangedIsSpared | internal/app/serve.go:540-549 | a pass neither stops nor restarts a listener whose configuration has not changed |
| Listeners.PassOutcome | internal/app/serve.go:426-563 | after a pass each protocol is off if not wanted; on its old socket if address and paths are unchanged; otherwise its old socket went if it closed and, if the start worked and both paths are named, a new socket serves the wanted address, certificate and key and says so |
| Listeners.PassProvider | internal/app/serve.go:145-171 | the provider of unchanged paths outlives a pass and goes when nothing is enabled or a path is missing; closed or unread, a pass changes nothing |
| Listeners.ShutOutcome | internal/app/serve.go:259-278 | after shutdownAll exactly the sockets that would not close are bound |
| Listeners.RepeatIsNoOp | internal/app/serve.go:426-466 | after a pass whose starts succeeded, the same pass does nothing |
| Listeners.NothingAfterShutdown | internal/app/serve.go:259-278 | nothing is bound, started or stopped after shutdownAll |
| Listeners.RetryIffDown | internal/app/serve.go:508-510 | needsRetry holds exactly of a protocol wanted and not bound |
| Listeners.OneProvider | internal/app/serve.go:145-171 | running listeners share one certificate provider on one pair of paths |
| Listeners.ServingReconciler.ReconcileOne | internal/app/serve.go:532-563 | one protocol's transition, on the sockets |
| Listeners.ServingReconciler.ReconcileServing | internal/app/serve.go:426-466 | one pass; a closed reconciler or a failed settings read changes nothing |
| Listeners.ServingReconciler.ShutdownAll | internal/app/serve.go:259-278 | closes for good; only sockets that would not close stay bound |
| Limiter.AttemptLimiter.Sweep | internal/api/auth_handlers.go:86-96 | once a window, exactly the spent entries go |
| Limiter.AttemptLimiter.Allow | internal/api/auth_handlers.go:58-81 | one step of the limiter |
| Limiter.SweepingIsInvisible | internal/api/auth_handlers.go:83-96 | for attempts in time order the answers and waits are those of a limiter that never deletes |
| Limiter.AtMostTwentyAWindow | internal/api/auth_handlers.go:25-29 | of any twenty-one attempts allowed one source the last is at least a window after the first, whatever other sources do |
| Limiter.EveryAnswerIsRight | internal/api/auth_handlers.go:58-81 | in any run in time order each attempt is allowed exactly when its source is inside no lockout and fewer than ten were allowed in its window; the eleventh starts a minute's lockout; inside one the wait is exactly what is left |
| Limiter.SourceAlone | internal/api/auth_handlers.go:38-49 | sources do not affect each other |
| Pairing.Registry.NewPairingCode | internal/confsync/registry.go:172-185 | the new code replaces the live one, or the store failed and nothing changed |
| Pairing.Registry.Pair | internal/confsync/registry.go:191-241 | a secret exactly for the live code, in time, with guesses left; spent before saved; a wrong guess recorded exactly when the code was open and its record could be saved; the entry takes the secret and the date |
| Pairing.Registry.Forget | internal/confsync/registry.go:85-97 | secret and date of the entry go, or nothing changes |
| Pairing.Registry.Heartbeat | internal/confsync/registry.go:276-294 | dates a registered entry and keeps its secret |
| Pairing.Registry.Authenticate | internal/confsync/registry.go:249-266 | a secret names exactly the instance last paired with it and not forgotten since |
| Pairing.OneSecretPerCode | internal/confsync/registry.go:227-232 | each code yields at most one secret, store failures included |
| Pairing.NothingAfterFiveGuesses | internal/confsync/registry.go:204-215 | nothing pairs with a code after five recorded wrong guesses or its expiry |
| ZonePatch.MergeTouchesOnlyTheBody | internal/api/zones_handlers.go:828-918 | a patch changes the columns it names and no other, and leaves the row canonical |
| ZonePatch.MergeIff | internal/api/zones_handlers.go:828-918 | a patch is refused exactly when a column it names does not read, the row it asks for does not fit, or a column of that has no canonical spelling |
| ZonePatch.ReadDoes | internal/api/zones_handlers.go:946-965 | a read leaves the handler with the row and its merge, or with the body refused |
| ZonePatch.WriteDoes | internal/api/zones_handlers.go:971-999 | a write on the stamp it read stores columns and serial under the clock or one past the old stamp; on another it changes nothing and the handler reads again, or answers 409 the second time |
| ZonePatch.WritesTwiceAtMost | internal/api/zones_handlers.go:946-999 | over every interleaving a handler writes twice at most and answers 409 after the second write alone |
| ZonePatch.BumpDoes | internal/store/zones.go:359-363 | a bump adds one to the serial modulo 2^32, stamps the row with the clock and changes nothing else |
| ZonePatch.StepKeepsInv | internal/api/zones_handlers.go:946-999 | every read, write and serial bump that gives the row no stamp a handler in flight read on another row keeps the row the fold of the commits and the serial their count |
| ZonePatch.NoLostPatch | internal/api/zones_handlers.go:946-999 | over every interleaving of such steps the row is the committed patches in commit order and the serial counts every bump |
| ZonePatch.ForwardRunsAreClear | internal/store/zones.go:359-363 | every run whose bumps are stamped past the row is such a run |
| ZonePatch.ClearIff | internal/store/zones.go:283-308 | the condition is exact: a step keeps it exactly when no handler's next write, whenever it comes, leaves the row other than the fold of the commits or its serial short of a bump |
| ZonePatch.StaleWriteCosts | internal/store/zones.go:283-308 | after a write on a row its handler did not read, the row is still the fold exactly when the patch gives the same on both rows, and the serial right exactly when no bump, or a multiple of 2^32, came between |
| ZonePatch.ConflictChangedNothing | internal/api/zones_handlers.go:953-999 | over every interleaving, stale writes included, a handler is in the commit order exactly when it succeeded, once |
| ZonePatch.BackwardBumpLosesPatch | internal/store/zones.go:359-363 | a serial bump that restores an older stamp lets a stale write land over a committed patch, which is lost exactly when the stale patch gives another row on top of it |
| ZonePatch.SameMillisecondBump | internal/store/zones.go:359-363 | a bump in the millisecond of the row's stamp, with a PATCH in flight: the PATCH writes the old serial back and the count is short by one |
| Settings.OnePhase | internal/api/settings_handlers.go:519-529 | every key falls in exactly one phase |
| Settings.OrderSettings | internal/api/settings_handlers.go:542-555 | the nested loops list each phase's keys in turn |
| Settings.OrderIsPermutation | internal/api/settings_handlers.go:542-555 | exactly the body's keys are judged, each once |
| Settings.OrderIsPhased | internal/api/settings_handlers.go:542-555 | in phase order |
| Settings.HandleSettingsPut | internal/api/settings_handlers.go:601-666 | all of the body is stored or none, exactly when every key passes in order; a coherent state stays coherent |
| Settings.WritableIff | internal/api/settings_handlers.go:619-628 | a box that follows a main takes a body only if every key of it is one that stays on the box |
| Settings.NormalIs | internal/api/settings_handlers.go:612-616 | the peer is stored without its trailing slashes, every other value as sent |
| Settings.SyncKeysIff | internal/api/settings_handlers.go:284-302 | the peer and token keys pass exactly when a peer has a token afterwards |
| Settings.ServeKeysIff | internal/api/settings_handlers.go:303-335 | the serving keys pass exactly when an enabled protocol has a loading pair afterwards and the rules on the pair hold |
| Settings.AcceptedIff | internal/api/settings_handlers.go:639-660 | sound and complete: accepted exactly when the values are valid, the result is coherent and the pair rules hold |
| Settings.FirstPairPasses | internal/api/settings_handlers.go:501-518 | a valid pair sent where no key was stored passes, with the enables that need it |
| Settings.ReplacedPairRefusedIff | internal/api/settings_handlers.go:508-511 | replacing a pair in one body is refused exactly when the new certificate does not load with the old key |

## Assumptions

- Hashes are injective, nonces, codes and secrets fresh: an import nonce prefixes no key of
  either side, a minted code or secret was not drawn before.
- A main's every synced write moves its version in the same transaction
  (internal/store/crud.go:28-46), and versions only grow.
- `SetConditional` succeeds when a routing table is installed.
- Library functions are parameters with a stated contract: netip and net.ParseMAC in `Dhcp`
  and `Leases`, rune lower-casing in `Labels`, tls.LoadX509KeyPair and the per-key validators
  in `Settings`, per-column normalising in `ZonePatch`.
- A bundle's rows are distinct by id and unique key within a table, because each table is
  read by one query (rules by one per group, and a rule never changes group).

## Left out

- HTTP routing, JSON, status codes, the dashboard, query log, statistics and list downloads.
- SQL text and dialects: tables are maps with unique keys and foreign keys; the id sequence
  is the SQLite high-water mark, not the PostgreSQL reset.
- The zone rows of the agreement theorem: a replica derives its own zones and transfers
  rewrite their SOA columns.
- Start-up seeding of default settings (internal/store/settings.go:116), which writes synced
  keys without moving the version.
- A write that passed the replica guard just before the box began to follow.
- Handlers racing each other in `Dhcp`: each request is one step.
- DHCP rows written by a bundle import, which does not run the validators.
- Scope columns other than name, CIDR, pool, gateway and the two flags: one opaque check.
- Reloads after a pull, the first list download, and the status fields of `Replica`.
- Deadlines, sockets, TLS and Kea's control socket: outcomes of abstract steps.
- A poll racing a lease release, where the code accepts a stale row until the next poll.
- RouteUnaffected: says nothing of latency ranking inside a route; a route is the multiset of
  its upstreams.
- PullOnce: the main holds still during the call; a main that moves between the reads is a
  step of `Sync`. The bundle's SyncKey is a parameter.
- Poll: leaves out HA status, subscribers and the lease table it stores.
- ReconcileServing: installs DoT before it looks at DoH, where the code commits both at the
  end; neither reads the other.
