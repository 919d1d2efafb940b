# Mazzy VPN: models and proofs

This project models the state-bearing parts of Mazzy VPN in Dafny and proves what they keep, over every
input, every interleaving and every pattern of failures. `dafny verify dfyconfig.toml` verifies all of it.

- **Android profile import** (`ProfileImport.dfy`): two stores and an undo journal, each write of which may
  be done, throw, or be where the process dies, refined to an atomic map of profiles.
- **Android VPN session** (`VpnSession.dfy`, `SessionHistory.dfy`, `HandleTable.dfy`): the service as a transition
  system over the delivering thread, a revocation, the control executor and the native handle table, with what
  every run keeps, what must lie behind a connection, and where starts, failures, stops and destroys lead.
- **Connection stack** (`Kernel`, `Guard`, `Routes`, `Dns`, `Connect`, `Recover`, `PolicyRouting`): the kernel
  as a value, a runner that may fail at any call, the layers with their teardown, the forced recovery, and
  where packets go under the installed rules.
- **Profiles** (`Profile`, `ProfileText`, `ProfileSpelling`, `Encoding`, `Uapi`, on `Text` and `Folding`): the parser,
  the exact set of configurations it returns, which spellings of a text it reads alike, the engine text, and a
  reader that recovers the device from it.
- **Intent and live test** (`StateStore`, `LiveTest`): the state file and the transaction around it.
- **Control plane** (`Plane`, `Trust`, `Grants`, `Broker`, on `Lexical` and `Sorting`): registry, trust, expiring
  grants and channels through three gates.
- **Loops and machines** (`Json`, `WorkerPool`, `Measure`, `Health`, `Capture`).

Objects that the sources change in place are classes whose methods are proved against functions of the old
state; concurrency is a total `Next` function over labelled steps. The environment (command failures, store
faults, network answers, clocks, the interface name that the kernel grants) is an argument, so a statement
covers all of its behaviours.

Where the code does less than its comments say, the exact condition is proved:

- `ProfileImportService` clears the journal even after a swallowed restore failed: `AtomicExactly`, with the
  concrete `SwallowedRestoreTears`.
- `onDestroy` drops its own cleanup when the executor has not taken it in time, and the tunnel stays up:
  `DestroyCloses`, with the concrete `OvertakenIsReachable`.
- `connect.Up` deletes the guard table before installing it for another interface name, while the engine is
  already up: the clause on `exposed` of `Connect.Conn.Up`.
- `routes.Up` that fails midway is not taken down, since `routesOn` is set only afterwards: `Restored` and `CutShort`.
- `cmdRecover` deletes four copies of each rule, for the default mark only, and no endpoint route:
  `ClearedExactly`, `OtherMarkStays`, `RecoverAfterCutShort`.
- A mark of 253, 254 or 255 names one of the kernel's own tables, and outer packets go back to the tunnel:
  `AtMostOnceExactly`, `LocalMarkLoops`, `MainMarkLoops`.
- A state with a line of 64 KiB or more is written without an error and cannot be read back: `ReadAfterWrite`.
- `livetest.Run` can leave the candidate's intent behind after a rollback, when the directory sync failed after
  the rename, and rewrites an earlier intent that was not settled: `Keeps` in `Tester.Transact`; and without a
  store it panics at commit.
- `rejectDuplicateKeys` accepts an object that ends early, exactly between members: `CutDecided`.
- Grant keys are ambiguous exactly when a name contains `->`: `KeyIsInjective`, `AllowedExactly`.

## Model

| member | source | states |
|---|---|---|
| HandleTable.NativeTable.TurnOn | android/amneziawg-tunnel/native/libwg-go/api-android.go:138-155 | the handle is the least one free, no device or a full table gives -1 and changes nothing, and only that entry is added |
| HandleTable.NativeTable.TurnOff | android/amneziawg-tunnel/native/libwg-go/api-android.go:158-169 | exactly the named tunnel is closed and removed; an unknown handle is ignored |
| HandleTable.LeastUnusedIsSmall | android/amneziawg-tunnel/native/libwg-go/api-android.go:138-152 | with n tunnels alive the next handle is free and at most n |
| VpnSession.StepKeepsInv | android/app/src/main/kotlin/com/mazzy/vpn/MazzyVpnService.kt:93-280 | every step of every thread keeps the invariant that ties state, generation, queue, executor and native handles together; what must lie behind CONNECTED and ERROR is in SessionHistory |
| VpnSession.SingleLiveTunnel | android/app/src/main/kotlin/com/mazzy/vpn/MazzyVpnService.kt:198-280 | in every interleaving at most one native tunnel lives, it is the stored or the in-flight handle, awgTurnOff always names a live tunnel, and every tunnel created is alive or was closed once |
| VpnSession.ConnectedMeansLive | android/app/src/main/kotlin/com/mazzy/vpn/MazzyVpnService.kt:263-274 | CONNECTED, while not destroyed, means that the current generation's session owns the stored live tunnel |
| VpnSession.StaleSessionIsSilent | android/app/src/main/kotlin/com/mazzy/vpn/MazzyVpnService.kt:94-160 | once the generation has moved past g, no step of session g changes the state |
| VpnSession.StoppingStep | android/app/src/main/kotlin/com/mazzy/vpn/MazzyVpnService.kt:94-144 | while STOPPING no command moves the generation, and each step changes nothing, uses up work, or completes the stop with no tunnel alive |
| VpnSession.StoppingCanMove | android/app/src/main/kotlin/com/mazzy/vpn/MazzyVpnService.kt:124-151 | while STOPPING some thread can take a step that changes the service, whatever the environment answers |
| VpnSession.StopCompletes | android/app/src/main/kotlin/com/mazzy/vpn/MazzyVpnService.kt:124-144 | any run with more fair rounds than work left reaches IDLE with no tunnel alive, with no start on the way |
| VpnSession.DestroyCloses | android/app/src/main/kotlin/com/mazzy/vpn/MazzyVpnService.kt:176-191 | over every run in which onDestroy gives up waiting: once the executor has had the turns that its task still needs it is idle for good, and no tunnel lives if and only if the shutdown did not overtake the cleanup, that is drop it from the queue of an idle executor with a tunnel up; if it did, the tunnel lives from then on |
| VpnSession.OvertakenIsReachable | android/app/src/main/kotlin/com/mazzy/vpn/MazzyVpnService.kt:176-191 | a concrete run in which a session connects and the shutdown drops the cleanup |
| SessionHistory.ConnectedIsEarned | android/app/src/main/kotlin/com/mazzy/vpn/MazzyVpnService.kt:93-274 | over every run: a connected service, and the step that publishes it, has behind it an accepted start, a profile that loaded, an endpoint that resolved, a tunnel that turned on, protected sockets and an answered handshake of that very session, and every check between them found the session current and not interrupted |
| SessionHistory.FailureEndsInError | android/app/src/main/kotlin/com/mazzy/vpn/MazzyVpnService.kt:112-160 | over every run: when the current session is answered with a failure at the profile, the endpoint, the tunnel, the sockets or the handshake, then without a further command four turns of the executor report ERROR, with every tunnel ever created closed |
| SessionHistory.StartConnects | android/app/src/main/kotlin/com/mazzy/vpn/MazzyVpnService.kt:93-122 | over every run: a start on a service at rest, with nothing failing, is CONNECTED within twenty rounds, in the next generation, with its tunnel alive |
| SessionHistory.CommandsHeeded | android/app/src/main/kotlin/com/mazzy/vpn/MazzyVpnService.kt:93-130 | a start is heeded exactly in IDLE and ERROR, a stop and a revocation exactly outside IDLE and STOPPING, and each moves the generation by one |
| SessionHistory.StopHeededCompletes | android/app/src/main/kotlin/com/mazzy/vpn/MazzyVpnService.kt:124-151 | over every run: a stop or revocation that is heeded reaches IDLE with no tunnel alive |
| SessionHistory.CancelTakesEffect | android/app/src/main/kotlin/com/mazzy/vpn/MazzyVpnService.kt:131-183 | a stop, a destroy and a revocation alike: the active session never runs if it is still in the queue, and is interrupted if it runs |
| SessionHistory.DestroyInterrupts | android/app/src/main/kotlin/com/mazzy/vpn/MazzyVpnService.kt:185-187 | when onDestroy gives up waiting, a session on its way up fails at its next check, and an executor with nothing left is not disturbed |
| SessionHistory.DestroyedIsIdle | android/app/src/main/kotlin/com/mazzy/vpn/MazzyVpnService.kt:176-191 | over every run: after onDestroy has returned the state is IDLE for good |
| ProfileImport.ValidIdExactly | android/app/src/main/java/com/mazzy/vpn/core/ManagedProfileValidator.kt:21 | three to 64 small letters, digits and hyphens, the first one a letter |
| ProfileImport.JournalKeysApart | android/app/src/main/java/com/mazzy/vpn/core/SharedPreferencesDocumentStore.kt:9-32 | document keys and journal keys of valid ids never collide, and a journal key names one id |
| ProfileImport.SecretKeyInjective | android/app/src/main/java/com/mazzy/vpn/core/ProfileImportService.kt:76 | the secret key determines both the profile id and the credential name |
| ProfileImport.ProfileImportService.RecoverInterruptedImport | android/app/src/main/java/com/mazzy/vpn/core/ProfileImportService.kt:60-74 | the loop over two stores and a journal does exactly what the recovery function says, for every pattern of failures and a crash |
| ProfileImport.ProfileImportService.UndoImport | android/app/src/main/java/com/mazzy/vpn/core/ProfileImportService.kt:40-50 | the catch block swallows failing restores one by one and then clears the journal |
| ProfileImport.ProfileImportService.ImportProfile | android/app/src/main/java/com/mazzy/vpn/core/ProfileImportService.kt:21-51 | the whole import, with its journal, its writes and its catch block, for every pattern of failures and a crash; ImportReturns and AtomicExactly say what it comes to |
| ProfileImport.ImportReturns | android/app/src/main/java/com/mazzy/vpn/core/ProfileImportService.kt:21-51 | an import returns if and only if a journal that was left can be read and every write it takes is done: two and one a saved secret to undo that journal, and three and one a credential of its own; then no journal is left and the stores hold the committed profile |
| ProfileImport.ImportHalts | android/app/src/main/java/com/mazzy/vpn/core/ProfileImportService.kt:21-51 | whether it returns, throws or dies, by the position of its first fault, and of a crash in the catch block |
| ProfileImport.ReturnedStores | android/app/src/main/java/com/mazzy/vpn/core/ProfileImportService.kt:36-39 | after an import that returned, the document and every credential are stored under their keys, and nothing else has changed |
| ProfileImport.RecoveryReturns | android/app/src/main/java/com/mazzy/vpn/core/ProfileImportService.kt:60-74 | a recovery returns if and only if there is no journal, or a readable one and all its restores and its clearing are done; an unreadable one throws before any write |
| ProfileImport.RecoverStaysInScope | android/app/src/main/java/com/mazzy/vpn/core/ProfileImportService.kt:60-74 | recovering one id touches no document, journal or secret of another |
| ProfileImport.ImportStaysInScope | android/app/src/main/java/com/mazzy/vpn/core/ProfileImportService.kt:21-51 | importing one id touches no document, journal or secret of another, whatever fails |
| ProfileImport.OthersUndisturbed | android/app/src/main/java/com/mazzy/vpn/core/ProfileImportService.kt:21-76 | so what counts as any other profile is unchanged |
| ProfileImport.RecoverKeepsProfile | android/app/src/main/java/com/mazzy/vpn/core/ProfileImportService.kt:60-74 | a recovery, cut off anywhere, keeps the profile that counts, and a completed one stores it and clears the journal |
| ProfileImport.RecoveryResumes | android/app/src/main/java/com/mazzy/vpn/core/ProfileImportService.kt:60-74 | a recovery that was cut off and started again, with no further failure, ends in the storage that an undisturbed one reaches |
| ProfileImport.ImportIsAtomic | android/app/src/main/java/com/mazzy/vpn/core/ProfileImportService.kt:25-50 | when restores in the catch block hold or the process dies, the profile that counts is the committed one exactly if the import returned, and the earlier one otherwise |
| ProfileImport.ImportRefinesMap | android/app/src/main/java/com/mazzy/vpn/core/ProfileImportService.kt:25-50 | one import is one atomic step of the map from ids to documents and secrets, or no step |
| ProfileImport.RunsAreAtomic | android/app/src/main/java/com/mazzy/vpn/core/ProfileImportService.kt:25-74 | over any run of imports, failures and crashes the catalog that counts is the one of the imports that returned, in order, and a completed recovery stores it |
| ProfileImport.FailedImportExact | android/app/src/main/java/com/mazzy/vpn/core/ProfileImportService.kt:40-50 | a failed import leaves the profile as it was if and only if no swallowed restore was of an entry that the import had changed |
| ProfileImport.AtomicExactly | android/app/src/main/java/com/mazzy/vpn/core/ProfileImportService.kt:21-74 | over every import and every fault, the profile that counts is the committed one if the import returned and the earlier one otherwise, unless one of its own writes threw, the catch block ran to the end, and the restore of an entry with a new value threw: exactly then it is torn |
| ProfileImport.SwallowedRestoreTears | android/app/src/main/java/com/mazzy/vpn/core/ProfileImportService.kt:40-50 | a concrete import in which a swallowed restore leaves a mixture of old document and new secret, with the journal cleared |
| Guards.ValidInterfaceExactly | core/guard/guard.go:31 | one to 64 letters, digits or characters of -.:_, so no name ends the quotes or the line that holds it |
| Guards.Guard.Install | core/guard/guard.go:58-74 | deleting and applying touches only the named table; on success the table holds exactly the new ruleset if the deletion worked or there was none |
| Guards.Guard.InstallIPv6Guard | core/guard/guard.go:58-74 | an invalid interface name is refused without any command; a re-install exposes a running engine exactly if the deletion worked |
| Guards.Guard.InstallConnmark | core/guard/guard.go:102-112 | only the connmark table changes, all or nothing on a clean host |
| Routes.AllowedDefaults | core/routes/routes.go:241-258 | each family's flag is set exactly if some peer allows the whole family |
| Routes.EffectiveMark | core/routes/routes.go:52-57 | the mark shared by engine and routes is the profile's, or 51820 where it has none, and never zero |
| Routes.Applier.AddDefault | core/routes/routes.go:195-223 | a failure leaves exactly the rules added so far; success adds the route to the interface and the sysctl for IPv4 |
| Routes.Applier.AddAddresses | core/routes/routes.go:74-83 | every address ends up on the interface; with no command failing it succeeds if and only if all are addresses, new and different |
| Routes.Applier.AddEndpointRoute | core/routes/routes.go:121-135 | a literal endpoint is pinned or an error is reported; a hostname is skipped |
| Routes.Applier.Up | core/routes/routes.go:70-115 | whatever fails, everything beyond the interface differs by exactly the recorded residue, which is complete on success and cut short in order otherwise; with no command failing it succeeds if and only if addresses, pinned route and default routes fit |
| Routes.Applier.Down | core/routes/routes.go:156-173 | when it reports success, or no command is made to fail, exactly the first copies of each applied family's rules and the pinned route are gone, in either order of the families; in the latter case it succeeds exactly if all were there |
| Routes.DropUndoesInstall | core/routes/routes.go:195-237 | dropping first copies undoes an install even when older copies of the rules lie behind |
| Dns.Manager.Up | core/dns/dns.go:32-67 | invalid servers are refused before any command; only a successful Up is marked applied |
| Dns.Manager.Down | core/dns/dns.go:70-83 | reverts the backend that Up used, and does nothing when nothing was applied |
| Connect.Conn.Teardown | core/connect/connect.go:158-186 | no pattern of failures keeps the engine up or exposes it; when it reports success, or no command is made to fail, the kernel is exactly the undo of what was on, and in the latter case it succeeds exactly if all of that was there; a connection that is down issues no command |
| Connect.Conn.Apply | core/connect/connect.go:91-152 | every layer up to the first that fails, with what tearing it down again would leave |
| Connect.Conn.Up | core/connect/connect.go:71-152 | with no command failing it connects if and only if nothing on the host is in the way; Live on success (engine behind its guard, addresses, rules, default routes, connmark and DNS in place), Restored on failure, nothing done when unsupported or gated; the engine comes up exactly if the gates are open, the guard's file is written and loaded, the engine's call works and the name is new, and it is exposed at some moment exactly if moreover that name is valid and another one than asked for and the next call, the guard's deletion, works |
| Connect.Conn.LiveIsMarked | core/connect/connect.go:91-105 | a live connection's engine, its rules in front of each full-tunnel family's list, its default routes and its connmark carry the profile's mark, or 51820 where the profile has none |
| Connect.UndoComplete | core/connect/connect.go:158-186 | tearing a complete stack down restores rules, routes, links, nft tables and DNS, except the sysctl |
| Connect.UnwindExact | core/connect/connect.go:158-199 | what the unwind after each kind of failure leaves: nothing, the sysctl, or exactly the residue of the routing layer |
| Connect.UpThenDown | core/connect/connect.go:71-192 | with no command failing, Up connects if and only if that is feasible, Up then Down restores the kernel except src_valid_mark, and a second Down issues no command |
| Recovery.RecoveredExactly | mazzy-vpn-cli/cmd/mazzy-vpn/recover.go:36-62 | the three managed interfaces, the three nft tables and the IPv4 routes of table 51820 go, every other interface, table and route stays |
| Recovery.ClearedExactly | mazzy-vpn-cli/cmd/mazzy-vpn/recover.go:51-58 | four copies of each rule go, a fifth stays, no other rule is lost or moved; nothing of ours is left if and only if neither rule had more than four copies |
| Recovery.ResidueCleared | mazzy-vpn-cli/cmd/mazzy-vpn/recover.go:51-58 | the rules that a routing layer with the default mark left are gone, if no rule has more than four copies |
| Recovery.OtherMarkStays | mazzy-vpn-cli/cmd/mazzy-vpn/recover.go:51-58 | a rule for any other mark survives |
| Recovery.SecondRecovery | mazzy-vpn-cli/cmd/mazzy-vpn/recover.go:23-62 | recovering twice changes nothing more exactly if the first recovery cleared everything |
| Recovery.RecoverAfterCutShort | mazzy-vpn-cli/cmd/mazzy-vpn/recover.go:36-62 | after a routing layer cut short, recovery leaves what it would leave without it, except the sysctl and the endpoint's route |
| Recovery.Recover | mazzy-vpn-cli/cmd/mazzy-vpn/recover.go:36-62 | the loops over interfaces, tables, rules and the table flush reach exactly the recovered kernel; under any failures other rules keep their order |
| Recovery.RescueFailedUp | mazzy-vpn-cli/cmd/mazzy-vpn/recover.go:23-76 | an Up whose routing layer failed, followed by a recovery, leaves only the endpoint's route and the sysctl of it |
| PolicyRouting.HostRouteIsExact | core/routes/routes.go:121-135 | the pinned route matches the endpoint's one address, in table main |
| PolicyRouting.EndpointByItsRoute | core/routes/routes.go:45-57 | behind the suppressing rule a packet to the endpoint takes that route and no other, whatever its mark |
| PolicyRouting.MarkedNeverTunnelled | core/routes/routes.go:45-57 | whatever rules others have, a packet with the engine's mark never leaves by the tunnel interface, when only the connection's rules name its table and it is not the main or the local one |
| PolicyRouting.MarkedTunnelledExactly | core/routes/routes.go:45-57 | over the kernel's own rules, an outer packet comes back to the tunnel if and only if its mark is 255, 254 or 253 and the lookup of its peer ends at that table's default route |
| PolicyRouting.UnmarkedAvoidsDefault | core/routes/routes.go:193-223 | with a full tunnel an unmarked packet leaves by a local route, a specific main route or the tunnel's table, never by main's default |
| PolicyRouting.UnmarkedLeaves | core/routes/routes.go:193-223 | such a packet does leave |
| PolicyRouting.AtMostOnce | core/routes/routes.go:45-57 | under the same condition every journey of every packet is encapsulated at most once |
| PolicyRouting.AtMostOnceExactly | core/routes/routes.go:45-57 | over the kernel's own rules no packet is ever encapsulated twice if and only if the mark loops for no peer |
| PolicyRouting.LiveConnectionRoutes | core/connect/connect.go:91-105 | a live connection has both properties, because engine and routes share one mark |
| PolicyRouting.LiveConnectionExactly | core/connect/connect.go:91-105 | a live connection over the kernel's own rules encapsulates no packet twice if and only if its mark loops for no peer |
| PolicyRouting.DifferentMarksLoop | core/routes/routes.go:45-57 | with another engine mark the outer packets are encapsulated without end |
| PolicyRouting.MainMarkLoops | core/routes/routes.go:52-57 | so they are when the profile's mark is 254, the main table |
| PolicyRouting.LocalMarkLoops | core/routes/routes.go:52-57 | and when it is 255, the local table, whatever the rules are |
| Text.PairsOfPairText | core/state/state.go:54-92 | written key=value lines are read back, less one carriage return at the end of each, and the scanner can hold them all if and only if each is shorter than 64 KiB |
| Text.ParseInt64OfSigned | core/state/state.go:62-121 | a 64-bit number is read back from its decimal form |
| Text.ParseInt64Exactly | core/profile/config.go:236-242 | one optional sign and digits, with zeros in front or not, is the number they say, if it fits 64 bits |
| Text.NotANumber | core/profile/config.go:236-242 | and nothing else is a number |
| Profile.Parse | core/profile/config.go:100-150 | the loop over lines, sections and the current peer computes the meaning of the text, with the error of the first bad line, or of a line over 64 KiB once those before it have been read |
| Profile.EntryDecided | core/profile/config.go:126-145 | an entry is accepted exactly in a section that knows its key, with a value the key can take; then an interface entry leaves the peers alone, a peer entry changes only the last peer, and a well-formed configuration stays one |
| Profile.EntryErrors | core/profile/config.go:119-150 | why an entry is refused: the section first, then a directive that runs something, then an unknown key or a value the key cannot take |
| Profile.ObfuscationKeys | core/profile/config.go:178-190 | the twenty obfuscation keys that are known, and no other |
| Profile.EntriesCommute | core/profile/config.go:152-193 | two interface entries with different keys can trade places |
| Profile.LastEntryCounts | core/profile/config.go:152-193 | of two entries with one key the last counts, except for the two lists |
| Profile.ParsedIsWellFormed | core/profile/config.go:100-256 | every accepted text gives trimmed values without newlines whose lines fit the scanner, known obfuscation keys, 64-bit numbers, a 32-bit mark, and one peer a [Peer] header |
| Profile.ExecutableIsRefused | core/profile/config.go:84-133 | no text with an executable directive in an [Interface] section is accepted, wherever it stands |
| ProfileText.RangeOfParse | core/profile/config.go:100-256 | the configurations that the parser returns are exactly the well-formed ones, and each has a text that it reads back field by field |
| ProfileSpelling.SpellingDoesNotMatter | core/profile/config.go:106-145 | two texts that differ in the case of keys and section names, and in white space around keys, names and values, give the same configuration, or the same error up to the case of the key it quotes |
| ProfileSpelling.UsualSpellingReads | core/profile/config.go:106-215 | every well-formed configuration written with [Interface], [Peer], PrivateKey, AllowedIPs and so on, with or without padding around the equals signs, is read back as itself |
| ProfileSpelling.BlankDoesNotMatter | core/profile/config.go:107-110 | a blank line or a comment between any two lines of any text changes nothing |
| ProfileSpelling.OneLineMore | core/profile/config.go:106-145 | a line at the end of an accepted text means what it means by itself, in the section whose header stands last before it |
| ProfileSpelling.PeerHeaderLine | core/profile/config.go:111-118 | a [Peer] header in any spelling adds a peer with nothing set |
| ProfileSpelling.ListsJoined | core/profile/config.go:225-234 | two lists with a comma between them are one list with the items of both, in order |
| ProfileSpelling.HexMarkIsRead | core/profile/config.go:244-256 | a mark after 0x or 0X is the number of its hexadecimal digits, in either case, and an error beyond 32 bits |
| ProfileSpelling.HexMarkLine | core/profile/config.go:172-177 | in a text, such a line in an [Interface] section sets the mark and nothing else |
| Encoding.Base64RoundTrip | core/profile/uapi.go:114-123 | standard base64 with padding (section 4 of RFC 4648) decodes what it encodes, for every length |
| Encoding.DecodedExactly | core/profile/uapi.go:114-123 | what is decoded is exactly whole groups of four letters of the alphabet, the last of which may end in one or two equals signs, with line breaks left out |
| Encoding.HexRoundTrip | core/profile/uapi.go:114-123 | lower-case base16 (section 8 of RFC 4648) decodes what it encodes |
| Uapi.KeyTravels | core/profile/uapi.go:114-123 | a 32-byte key in base64 comes out as the hex of the same bytes |
| Uapi.KeyLength | core/profile/uapi.go:114-123 | of the texts that are base64, those of 32 bytes are keys, and the others are reported with their length |
| Uapi.DeviceDescribes | core/profile/uapi.go:30-87 | the engine is told something exactly if every key is one, and then the private key, a positive port, the mark, the obfuscation for AmneziaWG alone, and every peer's keys, endpoint, addresses and positive keepalive, in order |
| Uapi.WriteAmnezia | core/profile/uapi.go:103-110 | the present obfuscation keys, verbatim and in the fixed order |
| Uapi.WritePeer | core/profile/uapi.go:63-87 | one peer's lines, or the error of its first bad key |
| Uapi.ToUapi | core/profile/uapi.go:30-61 | the text of exactly the device that the configuration describes, or the first error |
| Uapi.ReadDevice | core/profile/uapi.go:30-110 | reading the written pairs gives back keys, port, mark, obfuscation map and the peers in order |
| Uapi.RenderProfile | core/profile/uapi.go:30-123 | for every text accepted and rendered, splitting the output at newlines and first equals signs recovers the configuration's device |
| StateStore.Store.Write | core/state/state.go:40-66 | the file is replaced by the state's text unless the write failed before the rename; an error may also come after it |
| StateStore.Store.Read | core/state/state.go:79-123 | an unreadable file, a line over 64 KiB, an unknown protocol or no profile is an error; otherwise the scan loop picks the last value of each key and the documented defaults |
| StateStore.Store.SetDesired | core/state/state.go:69-76 | only DESIRED changes, on what is read |
| StateStore.StateDecided | core/state/state.go:79-123 | a protocol under one of its names and a profile make a state, with the defaults for what is missing; otherwise the error says which of the two is |
| StateStore.AliasesExactly | core/types.go:20-40 | the eleven names of the four protocols are understood, and no other |
| StateStore.BaseExactly | core/state/state.go:56 | the base name is the last element, whatever directory is in front and however many slashes behind; of slashes alone one, of nothing a dot |
| StateStore.BaseOfBase | core/state/state.go:56 | the base name of a path is not empty and is its own base name |
| StateStore.NormalizeOnce | core/state/state.go:51-121 | normalization is idempotent |
| StateStore.ReadAfterWrite | core/state/state.go:40-123 | Read after Write gives the normalized state if and only if no stored field has a newline or a carriage return at its end or makes a line over 64 KiB |
| StateStore.WrittenAgain | core/state/state.go:40-123 | a state that was read and is written again is read as the same if and only if it is settled: base name, and nothing that a line cannot carry |
| StateStore.SettledWrite | core/state/state.go:69-76 | rewriting a settled state with another DESIRED changes nothing else |
| LiveTest.Tester.Rollback | core/livetest/livetest.go:119-134 | tears down, rewrites the earlier intent as it was read, and raises it if it was up |
| LiveTest.Tester.Run | core/livetest/livetest.go:66-103 | passes exactly if raised, verified and committed; nothing of the candidate is stored before it is verified; without a store it panics at commit |
| LiveTest.Tester.Transact | core/livetest/livetest.go:66-134 | on every file and candidate: a pass leaves the candidate's intent if and only if it can be read back; a failure leaves the earlier one if and only if that was written again and is settled, or was not and the candidate's write had not landed or says the same, which for a candidate that can be read back means that the earlier intent is the normalized candidate; the last thing done is to raise the earlier connection if it was up, and to lower the candidate otherwise |
| Json.SkipValue | core/api/router.go:181-203 | consumes what the skip function says on any stream |
| Json.SkipsOneValue | core/api/router.go:181-203 | which is exactly one value, however deeply nested |
| Json.RejectDuplicateKeys | core/api/router.go:138-178 | the loop with its depth counter and set of names computes the verdict on any stream |
| Json.DuplicatesDecided | core/api/router.go:138-178 | on an object's stream it succeeds if and only if the object's own names differ pairwise, with the depth still 0, and otherwise names the first repetition |
| Json.OnlyObjects | core/api/router.go:140-147 | any other value is refused |
| Json.TruncationPasses | core/api/router.go:150-177 | a stream that ends after a complete member is accepted |
| Json.CutDecided | core/api/router.go:138-203 | of an object with distinct names, a cut stream is accepted if and only if it ends after the opening brace, after a complete member, or not early at all; every other cut cannot be read |
| WorkerPool.SlotsExactly | core/measure/measure.go:165-180 | in every run the loop gets a slot exactly while fewer than four workers have one |
| WorkerPool.StepKeepsInv | core/measure/measure.go:165-180 | every interleaved step keeps slots, workers, results and the done channel consistent |
| WorkerPool.NeverStuck | core/measure/measure.go:165-180 | some step is possible until all workers have been joined |
| WorkerPool.EveryRun | core/measure/measure.go:165-180 | at most four probes in flight, at most seven steps a target, and a finished run has the probe of target i in results[i] |
| Measure.BetterIsStrictWeak | core/measure/measure.go:188-196 | the ranking comparison is a strict weak order |
| Measure.ProbeDecided | core/measure/measure.go:92-151 | reachable exactly if endpoint, resolution, dial and write are all right, ICMP-alive if moreover a ping comes back, with the latency that is reported in each case |
| Measure.ProbesAreCoherent | core/measure/measure.go:92-151 | a probe reports an ICMP answer only from a reachable endpoint, and an error only from an unreachable one |
| Measure.RankingIsDetermined | core/measure/measure.go:161-197 | whatever interleaving and whatever stable sort, the ranking is the same rearrangement of the probes: who answers a ping first, then who is reachable, then the faster |
| Measure.BestAlive | core/measure/measure.go:201-213 | the first ICMP answer, or else the first reachable result, or nothing usable |
| Measure.BestOfRanking | core/measure/measure.go:201-213 | on a ranking it is the first element whenever anything is usable |
| Sorting.SortedIsUnique | core/measure/measure.go:188-196 | a stably sorted arrangement is unique |
| Grants.GrantBook.Issue | core/control/grant.go:95-113 | signed in the issuer's name and filed behind the edge's other grants, or refused without a change |
| Grants.GrantBook.Allows | core/control/grant.go:129-138 | true exactly if a grant on the edge that never expires, or expires later than now, lists the scope |
| Grants.GrantBook.ScopesOn | core/control/grant.go:142-159 | the distinct live scopes in the order in which they are met |
| Grants.ScopesAreAllowed | core/control/grant.go:142-159 | which are exactly the allowed scopes, each once |
| Grants.GrantBook.RevokeAllTo | core/control/grant.go:170-181 | deletes exactly the keys that end like an edge to the participant, and counts them |
| Grants.KeepAlive | core/control/grant.go:189-196 | filters the list in place: the live grants in their order, and the number of the others |
| Grants.GrantBook.Prune | core/control/grant.go:184-204 | every list is filtered, empty edges go, and the result is the number of grants removed |
| Grants.PruningIsInvisible | core/control/grant.go:129-204 | pruning at now leaves Allows unchanged for every time from now on |
| Grants.PruningForgets | core/control/grant.go:129-204 | for an earlier time pruning takes a permission away exactly if every grant of it has expired by now |
| Grants.KeyIsInjective | core/control/grant.go:91 | an edge shares its key with no other if and only if neither name has an arrow in it |
| Grants.TargetsExactly | core/control/grant.go:170-181 | RevokeAllTo takes an edge's key for its own target alone if and only if neither name has an arrow in it |
| Grants.ArrowsCollide | core/control/grant.go:91 | an edge from any name with an arrow in it shares its key with an edge from another name |
| Grants.AllowedIsGranted | core/control/grant.go:129-138 | in a well-filed book a grant that names exactly the two participants allows, and between arrow-free names nothing else does |
| Grants.AllowedExactly | core/control/grant.go:91-138 | exactly between arrow-free names is a permission, in every book, never taken from a grant to somebody else |
| Grants.RevokedExactly | core/control/grant.go:170-181 | RevokeAllTo removes every grant to the participant, and between arrow-free names no other |
| Planes.Plane.Register | core/control/control.go:79-92 | a trimmed, new name with one of the five kinds is filed under it; everything else is refused |
| Planes.Plane.Deregister | core/control/control.go:95-103 | the participant and every route that mentions it go, and nothing else |
| Planes.Plane.Allow | core/control/control.go:114-128 | adds one route, only between registered participants |
| Planes.RoutesAfter | core/control/control.go:95-146 | what each change does to CanReach, for all pairs |
| Planes.Plane.Reachable | core/control/control.go:149-161 | the ids that can be reached, strictly ascending |
| Planes.Plane.Participants | core/control/control.go:164-173 | all ids, strictly ascending |
| Trust.TrustStore.Pair | core/control/trust.go:55-68 | stores the key only if it derives the name, and never downgrades an owned entry |
| Trust.TrustStore.SetOwned | core/control/trust.go:71-79 | stores the key as owned only if it derives the name |
| Trust.TrustByHistory | core/control/trust.go:55-110 | after any commands a name is known exactly if a successful Pair or SetOwned of it has had no Unpair since, and owned exactly if one of those was a SetOwned |
| Trust.LastKeyCounts | core/control/trust.go:55-101 | the key of a known name is the one it was last vouched for with |
| Brokers.Broker.Open | core/control/channel.go:67-100 | succeeds exactly if all three gates are open and there is an endpoint; between registered ends it is NotTrusted exactly if the target is not in the trust map, or untrusted in it; names the first closed gate otherwise, and gives exactly the live scopes of the edge, ascending, the requested one among them |
| Brokers.Broker.OpenAfter | core/control/channel.go:67-100 | after any run from an empty trust store, a registered target is trusted exactly if a successful Pair or SetOwned of it has had no Unpair since |
| Brokers.Broker.Reachable | core/control/channel.go:111-123 | exactly the other participants for which Open succeeds, ascending, each with its channel, all of them recorded |
| Brokers.Broker.PerformAll | core/control/control.go:79-137 | over any run, both ends of every route are registered, every trusted key derives its name, and grants are filed under their own edge |
| Lexical.LexIsBefore | core/control/control.go:149-173 | the order of ids: the first different character decides, and a beginning comes before the whole |
| Lexical.StrictIsUnique | core/control/channel.go:84-122 | a strictly ascending list is determined by its elements |
| Health.Monitor.Check | core/health/health.go:91-131 | one tick: healthy exactly if link and internet are, deferred exactly if not and in grace, which changes nothing; failures count to one past the limit, two unless configured, and recovery is attempted exactly when the streak reaches it |
| Health.Monitor.RunUntil | core/health/health.go:91-157 | over any ticks failures is the streak cut at one past the limit, recoveredAtLimit says whether it reached the limit, and recoveries are exactly the ticks at which it did |
| Health.HealthyBetweenRecoveries | core/health/health.go:119-136 | between any two recoveries there is a healthy tick |
| Health.StreakIsRecovered | core/health/health.go:119-136 | a streak that has reached the limit has been recovered since its last healthy tick |
| Capture.DrainBounded | desktop/src-tauri/src/backend.rs:710-735 | for every sequence of reads the result depends on the input alone: all of it, or a prefix and the marker |
| Capture.BoundedFits | desktop/src-tauri/src/backend.rs:723-735 | never over the limit; the longest prefix that leaves room for the twenty characters of the marker, and below that the marker cut |
| Capture.ChunkingDoesNotMatter | desktop/src-tauri/src/backend.rs:715-721 | any cutting of an input into non-empty reads is the same input |
| Capture.DeadlineCoversEveryRound | desktop/src-tauri/src/backend.rs:974-983 | for every number of profiles and workers, zero included: between 5 s and 15 min, and unless cut it lasts five seconds past every worker's round |
| Capture.DeadlineExactly | desktop/src-tauri/src/backend.rs:974-983 | five seconds, and three for every second of the timeout and one more in each round that the workers need, up to 15 min |

## Left out

- VpnSession: notifications, broadcasts, foreground calls and the underlying-network task, which change no modelled field, are assumed not to throw; endpoint resolution and the tunnel's configuration are one operation that succeeds or fails; the bounded waits of a revocation and of onDestroy may end at any time.
- VpnSession: a full handle table cannot be reached by one service, so the table's own search is proved in HandleTable only.
- ProfileImport: profile validation, JSON text and its key order below a lawful journal codec, a secret read that throws, and a preference commit that reports failure after changing memory.
- The secret store's cipher and keystore: a secret is an opaque string.
- Kernel: only the effects that the layers rely on; source-address selection, the entries that the kernel itself makes (of the local table and for connected networks), metrics, and rules with explicit priorities are not modelled, and a command that the host refuses for other reasons is a failed call.
- Connect: one connection at a time on a host; the engine's own configuration text (see Uapi) and device creation are one call that succeeds or fails; the transition guard is not part of Up.
- Recovery.Recover: the step counter, the persisted intent and the catalog reset of the command.
- PolicyRouting: a rule of somebody else sends a packet to a table or does not apply; blackhole and unreachable rules are not modelled, which only removes journeys.
- Profile.Parse: texts are sequences of Unicode scalar values, so invalid UTF-8 is not covered; lower-casing is exact on whether the result is an ASCII key.
- Uapi: the engine's own parser is not part of this model; ReadText is the reader that the text format calls for. Validation of endpoints, addresses and number ranges (core/profile/validate.go) is not modelled.
- StateStore: directory and file modes, and durability beyond whether the rename took place.
- LiveTest: deadlines are an answer of the environment; the error texts of connector and store are arbitrary strings.
- Json: decoding below the token level, field binding, and the dispatch table with its policies.
- Measure: the sort is any stable sort, by its definition and uniqueness, not the library's block algorithm; latencies are integers, so the rounding of a floating-point ping time is not modelled.
- Grants: the pruning method filters a fresh copy of each list in place, so aliasing of a list by other holders is not captured; signatures, key derivation and their verification are opaque functions.
- Brokers: mutual exclusion; each method is one step, as the locks of each store make it only store by store.
- Capture: bytes are characters, and the capture threads and their join are not modelled.
- The desktop and terminal user interfaces, the daemon loop, the catalog, boot recovery beyond its gate, advisory scorers, and release tooling: static or single-pass code that would add only easy members.
