# AwgChain: a verified model

AwgChain manages a two-hop VPN chain on Windows: an outer hop, an inner hop that
rides on it, and a kill switch around both. This Dafny project models the parts
of it whose correctness is not visible from any one function, and proves what
they promise.

- **Config text.** `Text`, `Decimal`, `Lex`, `Ip` and `KeyText` are the text
  forms of lists, numbers, addresses and keys. `Config` is the configuration,
  `Parser` reads the wg-quick format, `Writer` prints it. `LineText`, `Values`
  and `RoundTrip` prove that reading undoes printing, for every order in which
  the I1..I5 packets are visited. `Parsed` says what the parser can produce and
  which of it survives a rewrite, `PrefixLength` at which texts the parser stops
  the program, `OddEndpoint` a text that does not survive one. `Meaning` gives
  the verdict on any text and says of its lines where every field comes from;
  `Forms` and `AddressForms` are the forms that are read and never printed.
  `HopScan` is the cheap scan for chain hops, `EditorText` the combined text of
  the editor, `Store` and `Migration` the directory of plain and encrypted files.
- **Kill switch.** `Firewall` installs the weighted filters and `FirewallPolicy`
  proves that they enforce one simple policy. `Guard` is the process that holds
  them, `Lock` the kill switch inside the manager with its re-arm after a
  repair, `Watch` the schedule of repairs.
- **Chain order.** `Forest` is the relation "rides on" read from the configs.
  `Start` raises the hops deepest first and `Nesting` says how deep its calls
  nest. `Stop` takes the riders down first and the hidden hops after, `DeepChain`
  is a chain too high for it.
- **Addresses and names.** `Bitwise` and `Prefix` are masks and prefixes,
  `Routes` the route list of an interface, `Intersect` the comparison of two
  configs, `ChainBuild` the construction of a chain, `ChainFile` its way through
  the config format, `Names` the valid names, `PairNames` the allocation of a
  pair, `NaturalSort` the order of names, `Debounce` the timer behind route
  changes.

Code that computes a value is a function; code that updates state is a method or
a class whose contract ties the new state to a function of the old one, and the
theorems are about those functions. What the operating system answers (engine
calls, service states, clocks, adapters) is a parameter that ranges over all
answers. Text is ASCII.

Findings, each with its exact condition:

- An endpoint such as `[::1%a]]:80` is accepted, but its host prints in a form
  that is rejected. Migrating such a config makes it unloadable. Migration keeps
  what every name loads exactly when no migrated config has such a host
  (`OddEndpoint.OddConfigIsLost`, `Migration.MigrationKeepsLoads`).
- A config that pins nothing, saved while the plain file of a chain hop has its
  name, is not what loading that name gives. A save is loaded back exactly when
  nothing of the kind stands in front of it (`Migration.SaveThenLoad`).
- A line longer than the scanner's buffer in front of the pin line hides a chain
  hop from the scan. Scan and parser disagree exactly when some line names the
  pin and each one that does is overlong or behind an overlong line
  (`HopScan.OverlongCommentHidesHop`, `HopScan.ScanAgrees`).
- `IntersectsWith` masks the bytes of its receiver, and `Start` compares one
  config with every tracked tunnel in turn. From the second comparison on each
  host address has turned into that of its network: 10.0.0.2/24 meets
  10.0.0.2/32 only the first time and 10.0.0.0/32 only later. The later answers
  are right for every other config exactly when each host address is still
  claimed after the masking and each masked one was claimed before
  (`Intersect.SecondComparison`, `Intersect.SecondComparisonIsWrong`).
- `parseIPCidr` returns neither a prefix nor an error for a prefix length its
  address family does not have, and the parser uses the result: 10.0.0.1/33
  stops the program. It does so exactly on the texts with such an entry in an
  Address or AllowedIPs line of its section and nothing wrong before it
  (`PrefixLength.ParseStops`, `PrefixLength.OverrunStops`).
- An interface header behind a peer header adds the peer that is still open, and
  the end of the text adds it again. An accepted text has as many peers as peer
  headers exactly when no interface header stands behind one
  (`Meaning.PeerTwice`, `Meaning.PeersOncePerHeader`).
- Stopping a tunnel walks four rides up. Of six started hops on one another,
  stopping the bottom one leaves the top one running on a stopped hop
  (`DeepChain.SixHopsAreTooMany`, `DeepChain.StopSixHops`). The running set stays
  closed under "rides on" exactly when no rider one ride beyond the walk was
  running (`Stop.ClosedUnlessDeep`).
- Starting passes its depth on from 0. Of two tunnels pinned on each other,
  starting one while nothing runs nests without end
  (`Nesting.MutualPinsNestForEver`). With nothing running, the nesting passes
  every bound exactly when the pins lead on for one ride more than there are
  names (`Nesting.StartNestsForEver`).

## Model

| member | source | states |
|---|---|---|
| Text.SplitList | upstream-conf/parser.go:225-235 | the list is the trimmed parts between commas, and an empty part fails the whole list |
| Ip.ParseShow | upstream-conf/parser.go:59-96 | every address, IPv4 or IPv6, is read back from its text |
| AddressForms.FourExact | upstream-conf/parser.go:70-76 | a text without a colon is an address exactly when it is the printed form of one |
| AddressForms.FullForm | upstream-conf/parser.go:70-76 | eight groups in any spelling, or six and an IPv4 address, are read as what they say |
| AddressForms.GapForm | upstream-conf/parser.go:70-76 | the same with a gap anywhere, which stands for the groups that are missing |
| AddressForms.SpelledAlike | upstream-conf/parser.go:70-76 | letter case and zeros in front do not change a group |
| KeyText.ParseShowKey | upstream-conf/parser.go:191-202 | every key is read back from its base64 text |
| Values.EndpointValue | upstream-conf/parser.go:98-129 | a printed endpoint is read back when its host is well formed and rejected otherwise, never read as another |
| Parser.FromWgQuick | upstream-conf/parser.go:251-511 | the loop over lines computes the meaning of the text: its lines, classified, folded over the parser state, up to the line whose nil prefix stops the program |
| Meaning.ParseVerdict | upstream-conf/parser.go:251-511 | for any text and name, accepted exactly when every line fits its section, a private key is set and every peer has a key; otherwise the error is that of the first thing wrong, in the order of the checks |
| Meaning.ParsedMeans | upstream-conf/parser.go:251-511 | in an accepted text the last line of an option wins, lists are joined in order, and the peers are those of the blocks behind their headers |
| Meaning.RunRefused | upstream-conf/parser.go:261-498 | the loop ends with the refusal of the first line that does not fit |
| Meaning.InterfaceSaid | upstream-conf/parser.go:295-459 | every field of the interface is the one its lines say, after any run of lines |
| Meaning.PeersSaid | upstream-conf/parser.go:460-499 | every peer is the one of the lines behind its header, and is added by the next header of either kind or by the end |
| Meaning.PeerCount | upstream-conf/parser.go:271-280 | one peer for every peer header and one more for every interface header behind one |
| Meaning.PeersOncePerHeader | upstream-conf/parser.go:271-280 | an accepted text has as many peers as peer headers exactly when no interface header stands behind a peer header |
| Meaning.PeerTwice | upstream-conf/parser.go:271-280 | a text with one peer header whose peer is in the config twice |
| Forms.BareAddress | upstream-conf/parser.go:78-95 | every address without a prefix length stands for its short form with 32 bits of IPv4 or 128 of IPv6 |
| Forms.FullLength | upstream-conf/parser.go:78-95 | the full length, and nothing behind the slash, mean what the address alone means |
| Forms.SuffixLeftOut | upstream-conf/parser.go:413-482 | leaving out a full-length suffix anywhere in an Address or AllowedIPs line leaves the parse of the whole text unchanged |
| Forms.TableForms | upstream-conf/parser.go:181-189 | "auto", "main" and any 32-bit number ask for the default table, and can stand for each other in any text |
| Forms.KeepaliveOff | upstream-conf/parser.go:174-179 | "off" and "(off)" are a keepalive of 0 in any text |
| Forms.EndpointForms | upstream-conf/parser.go:98-129 | any endpoint text is read exactly when its port is one and its host is plain or an address in brackets, and as what |
| Forms.NumberForms | upstream-conf/parser.go:131-160 | a sign and zeros in front of a number, and where it stops fitting |
| Forms.OnlyNumbers | upstream-conf/parser.go:131-160 | nothing but digits with or without a sign is a number |
| Forms.BreaksSkipped | upstream-conf/parser.go:191-202 | line breaks inside a key are skipped |
| Forms.Decorated | upstream-conf/parser.go:262-269 | blanks around a line and a comment behind it make no difference |
| Forms.HeaderForms | upstream-conf/parser.go:271-280 | section headers in any letter case |
| Forms.EmptyValue | upstream-conf/parser.go:289-294 | an entry without a value is refused for that exactly when its key is none of the packets, the handshake tags and nine options |
| Forms.EntryForm | upstream-conf/parser.go:284-288 | an entry is what stands before and behind the first equals sign, letter case of the key and blanks aside, up to a comment |
| Forms.OnlyItsName | upstream-conf/parser.go:295-497 | only the name of an option, in any letter case, is read as that option |
| Writer.ToWgQuick | upstream-conf/writer.go:34-187 | the printed text is that of the config for some order that visits each packet once |
| LineText.ClassifyRendered | upstream-conf/parser.go:261-294 | the printed text, split into lines and classified, is the list of lines printed |
| RoundTrip.ReadBack | upstream-conf/writer.go:34-187 | for every config the format can carry, parsing what is printed gives the config with switched-off keepalives dropped, or an error exactly when a host is malformed |
| RoundTrip.PrintThenParse | upstream-conf/parser.go:251-511 | parsing undoes printing on every well-formed config, whatever the order of the packets |
| Parsed.ParsedIsPrintable | upstream-conf/parser.go:251-511 | every config the parser produces can be printed, and its endpoints survive exactly when no host ends in a stray bracket |
| Parsed.Reload | upstream-conf/store.go:82-98 | a parsed config, printed and parsed again, is itself up to keepalives, exactly when no host is odd |
| Parsed.OddEndpointIsLost | upstream-conf/config.go:159-164 | a concrete endpoint that is accepted, printed and then rejected |
| OddEndpoint.OddConfigIsLost | upstream-conf/config.go:159-164 | a whole text with that endpoint, for any keys and name, is accepted, and what is printed for its config is rejected |
| PrefixLength.ParseStops | upstream-conf/parser.go:413-424 | the parser stops the program exactly on the texts with an overlong or negative prefix in a line of its section and nothing wrong before it |
| PrefixLength.ItemIsNil | upstream-conf/parser.go:59-96 | neither a prefix nor an error comes back exactly for a valid address with an integer length its family lacks |
| PrefixLength.OverrunStops | upstream-conf/parser.go:78-88 | every address with a longer prefix than its family has, in an interface of any name, stops the program |
| PrefixLength.TenSlashThirtyThree | upstream-conf/parser.go:78-88 | 10.0.0.1/33 does |
| HopScan.TextIsChainHop | upstream-conf/chainconf.go:29-47 | the scanning loop answers whether a line within the buffer limit names the pin key with a value |
| HopScan.HopLineAgrees | upstream-conf/chainconf.go:33-45 | line by line, the scan and the parser agree on what a pin line is, comments and letter case included |
| HopScan.ScanAgrees | upstream-conf/chainconf.go:29-47 | on every accepted text with lines that fit, the scan answers yes exactly when the parsed config pins its endpoint; in general the two disagree exactly when some line names the pin and every such line is overlong or behind an overlong one |
| HopScan.OverlongCommentHidesHop | upstream-conf/chainconf.go:29-47 | a comment longer than the buffer in front of any hop config hides it from the scan and not from the parser |
| EditorText.ComposeEditorText | upstream-ui/chainbuild.go:276-294 | the builder loop composes main text, banner and prefixed hop lines |
| EditorText.SplitEditorText | upstream-ui/chainbuild.go:297-312 | the builder loop separates the prefixed lines from the rest |
| EditorText.ComposeKeepsMeaning | upstream-ui/chainbuild.go:276-294 | the combined text parses as the main text alone, with carriage returns at line ends or without |
| EditorText.MainHalfKeepsMeaning | upstream-ui/chainbuild.go:297-312 | the main half of any text with carriage returns at line ends only parses as that text |
| EditorText.SplitMainKeepsMeaning | upstream-ui/chainbuild.go:276-312 | the main half of the combined text parses as the main text |
| EditorText.SplitHopHalf | upstream-ui/chainbuild.go:276-312 | the hop half of any combined text is the hop text with its lines trimmed on the right, after any hop lines of the main text |
| EditorText.SplitHopKeepsMeaning | upstream-ui/chainbuild.go:276-312 | when the main text has no hop line, the hop half parses as the hop text |
| EditorText.DropCRKeepsMeaning | upstream-ui/chainbuild.go:298-302 | carriage returns at line ends mean nothing to the parser |
| EditorText.KeepHopKeepsBoth | upstream-ui/chainbuild.go:339-345 | putting the old hop under a new main text keeps the meaning of both |
| Store.ListConfigNames | upstream-conf/store.go:20-61 | the listing holds exactly the names that have a file, each once |
| Store.ListedWhen | upstream-conf/store.go:35-59 | a name is listed exactly when it is valid and its sealed file is usable, or there is none and its plain file is; then loading it does not fail for want of either |
| Store.LoadedFrom | upstream-conf/store.go:63-119 | what a name loads was read from the plain file of a hop, the only file, or a file sealed for this name, and exactly when that parses |
| Store.NamesInCorrect | upstream-conf/chainconf.go:62-92 | plain and encrypted files of one name are listed once, for any directory order |
| Migration.ConfigStore.Save | upstream-conf/store.go:121-142 | a save succeeds exactly for a valid name whose file may be written when the disk agrees; then the printed text is in the file of its kind, and otherwise the directory is as it was |
| Migration.ConfigStore.DeleteName | upstream-conf/store.go:159-182 | each file of a valid name goes unless its removal is refused, and the call fails exactly when one was refused and none removed |
| Migration.ConfigStore.MigrateOne | upstream-conf/migration_windows.go:43-112 | one file is sealed under its name or nothing changes, with refusals at any point; with none, it is sealed and removed exactly when it can be, and the sweep stops only at a text that stops the parser |
| Migration.ConfigStore.Migrate | upstream-conf/migration_windows.go:28-113 | for any directory order and any refusals, every name loads what it loaded or what its migrated text reads as, and the plain file of a chain hop is never touched; with no refusal and no text that stops the parser, exactly the files that can be sealed are, and their plain forms are gone |
| Migration.SealedExactly | upstream-conf/migration_windows.go:43-112 | the files a complete sweep sealed are exactly the usable plain files without a sealed twin that do not look like a hop and parse as a config without a pin |
| Migration.MigrationKeepsLoads | upstream-conf/migration_windows.go:43-112 | the listed names stay the same, and every name loads the same up to keepalives exactly when no migrated config has an odd host |
| Migration.SaveThenLoad | upstream-conf/store.go:63-142 | a saved well-formed config is loaded back by its name exactly when no chain hop's plain file of the name stands in front, for a config without a pin, and for one with a pin when the scan sees it or no other sealed file has the name |
| Bitwise.AndByte | fork-sources/chainfirewall.go:509-523 | masking a number masks its low byte apart from the rest |
| Firewall.Engine.PermitEndpoint | fork-sources/chainfirewall.go:320-405 | two IPv4 filters per executable are added, or the refusal is reported; an endpoint without an IPv4 form is refused |
| Firewall.Engine.PermitChainDns | fork-sources/chainfirewall.go:408-471 | the IPv4 servers become alternatives of one filter per layer; without any the call fails |
| Firewall.Engine.PermitLans | fork-sources/chainfirewall.go:509-566 | one filter per IPv4 prefix and layer |
| Firewall.Engine.InstallAll | fork-sources/chainfirewall.go:79-142 | the transaction succeeds exactly when the DNS servers are usable and the engine takes every filter, and then the filters are those of the configuration |
| Firewall.AppIdsFromFileNames | fork-sources/chainfirewall.go:230-247 | all identifiers in order, or none |
| Firewall.ChainFirewall.Enable | fork-sources/chainfirewall.go:59-151 | all or nothing: success exactly when no session is open, the configuration is valid and the system lets every step through; then the session enforces it for the identifiers of its executables, and a failure leaves the session as it was and reports the first thing wrong |
| Firewall.EnablesWhen | fork-sources/chainfirewall.go:59-151 | the condition of success spelled out, down to how many filters the engine has to take |
| Firewall.ChainFirewall.Disable | fork-sources/chainfirewall.go:154-159 | no session is left |
| FirewallPolicy.MaskedAgree | fork-sources/chainfirewall.go:509-523 | comparing masked 32-bit numbers is comparing masked addresses byte by byte |
| FirewallPolicy.HeaviestIsHeaviest | fork-sources/chainfirewall.go:10-19 | the deciding filter matches and no matching filter is heavier |
| FirewallPolicy.FiltersEnforcePolicy | fork-sources/chainfirewall.go:84-141 | for every packet and every order of the filters, the verdict is to permit exactly when the policy allows the packet |
| FirewallPolicy.EnabledEnforcesPolicy | fork-sources/chainfirewall.go:59-151 | for every packet, the session that Enable opens permits exactly what the policy allows, with the identifiers Enable obtained for the executables |
| FirewallPolicy.SixStaysInside | fork-sources/chainfirewall.go:10-19 | an IPv6 packet passes exactly when it is not DNS and goes through hop 2 or the loopback |
| Guard.PollOnce | fork-sources/guard-main.go:380-472 | one turn keeps the session open exactly while armed, around the adapters of the configuration, every exit closes it, and the session is not touched while a hop is missing or nothing moved |
| Guard.HoldKillSwitch | fork-sources/guard-main.go:364-473 | the same over every finite run of polls |
| Guard.HeldPolicy | fork-sources/guard-main.go:364-473 | while armed, every packet is judged by the policy around the current configuration |
| Guard.OrphanExit | fork-sources/guard-main.go:425-441 | the guard lets go as an orphan exactly when armed, with a hop missing and the manager seen dead by every poll of a stretch of at least the grace span |
| Guard.OtherExits | fork-sources/guard-main.go:382-396 | after any run that still holds, the guard is stopped exactly by a signalled event, ends by a wait error exactly when the wait failed, and by timeout exactly when the wait timed out past the deadline |
| Guard.HoldsOn | fork-sources/guard-main.go:380-472 | it holds on in exactly the remaining cases |
| Guard.UntouchedWhileDown | fork-sources/guard-main.go:425-446 | while a hop is missing an armed guard that holds on changes nothing |
| Guard.ReloadsCounted | fork-sources/guard-main.go:411-472 | the rebuilds are counted, one for every poll that armed it anew |
| Guard.NeverOrphanWithoutManager | fork-sources/guard-main.go:398-409 | without a manager to watch that exit never happens |
| Guard.CurrentWithinTwoPolls | fork-sources/guard-main.go:411-472 | from the second steady poll on the filters are those around the current adapters |
| Guard.FollowsTheChain | fork-sources/guard-main.go:364-473 | the same after any run that still holds |
| Lock.ChainLock.Arm | upstream-manager/chainlock.go:129-223 | exactly when arming succeeds, that it then holds the rule set around the adapters read and for the identifiers of the executables found, and what every other case leaves |
| Lock.ChainLock.Disarm | upstream-manager/chainlock.go:226-244 | a lock that was on is lifted and its session closed; otherwise the session stays |
| Lock.LockedPolicy | upstream-manager/chainlock.go:129-223 | a lock that is on judges every packet by the policy it was armed with |
| Lock.ArmedAround | upstream-manager/chainlock.go:188-198 | in the terms of the view: all but DNS passes through the top adapter, DNS only to its IPv4 resolvers through it, and elsewhere only the root endpoint, the top endpoint through the root adapter, loopback, DHCP and the listed networks |
| Lock.ChainLock.Rearm | upstream-manager/chainrelock.go:55-95 | ends with the old rules untouched, the lock on around adapters read at that attempt, the setting off, or after exactly 100 failed attempts; the session is closed only after both adapters were seen |
| Lock.ChainLock.TearDown | upstream-manager/chainguard.go:461-471 | hops go down from the top, and nothing but the record changes |
| Lock.ChainLock.Repair | upstream-manager/chainguard.go:436-457 | the session survives every repair until a start succeeded and both adapters were seen |
| Watch.ChainWatch | upstream-manager/chainguard.go:485-534 | the loop computes the state and the repairs of any finite run of ticks |
| Watch.FailuresInSpell | upstream-manager/chainguard.go:491-533 | the counter is the number of repairs since the last healthy check, and the watch is slow exactly from the twentieth on |
| Watch.LastRepairEnded | upstream-manager/chainguard.go:500-526 | the time kept is the end of the last repair of the whole run, healthy checks in between or not |
| Watch.NeverGivesUp | upstream-manager/chainguard.go:516-526 | an unhealthy tick is repaired exactly when no repair was made before or the grace that goes with the repairs of this spell has passed since the last one ended |
| Watch.RepairsAreSpread | upstream-manager/chainguard.go:485-534 | k repairs in one spell need 25 seconds of idle time for each of the first twenty but one and 300 for each further one |
| Forest.FindParent | upstream-manager/chainorder.go:43-61 | the first listed name that the pin names, letter case and blanks aside |
| Forest.ListChildren | upstream-manager/chainorder.go:73-93 | the listed tunnels that ride on a name, in order |
| Forest.PinNames | upstream-manager/chainorder.go:43-61 | a tunnel rides on the one its pin names, whatever the letter case and the blanks around the pin |
| Forest.ChildIffParent | upstream-manager/chainorder.go:43-93 | the two lookups describe one relation |
| Forest.ForestIsConsistent | upstream-manager/chainorder.go:43-93 | any listing without cycles is a forest in the sense the ordering proofs use |
| Start.Manager.WaitForHop | upstream-manager/chainorder.go:111-122 | ends well exactly when a look made while less than 45 seconds are used up sees the hop started with a handshake, and always ends |
| Start.OutOfTime | upstream-manager/chainorder.go:111-122 | looks that saw nothing until the time was used up are all the looks there are |
| Start.UpAllAlong | upstream-manager/chainorder.go:111-122 | a hop that every question finds up is seen in time |
| Start.Manager.StartParents | upstream-manager/chainorder.go:125-147 | a hop that is up is only looked at, one on its way is waited for and not installed, any other is installed and then seen up, or failed five tries; installs only hops underneath |
| Start.Manager.StartHopWithRetry | upstream-manager/chainretry.go:34-52 | ends with the hop installed or after five tries that each failed, and keeps the order of installs |
| Start.Manager.StartTunnel | upstream-manager/ipc_server.go:89-148 | terminates on every acyclic relation; every recorded sighting, install, refusal and timeout is what the system answered; each install comes right after its parent was seen started with a handshake, and after a successful install only what rides on it is installed until something fails; in a world where every name loads, nothing is refused, installs succeed and hops come up in time it succeeds |
| Start.KindNeverFails | upstream-manager/ipc_server.go:89-148 | in such a world no truthful record ends in a failure |
| Start.SweepsUpwards | upstream-manager/chainorder.go:11-14 | without failures the hops go up in one sweep from the deepest |
| Nesting.NestingEnds | upstream-manager/ipc_server.go:89-99 | without cycles the calls nest no deeper than the level of the tunnel, whatever the system answers |
| Nesting.StartNestsForEver | upstream-manager/chainorder.go:125-147 | with nothing running the nesting passes every bound exactly when the pins lead on for one ride more than there are names |
| Nesting.MutualPinsNestForEver | upstream-manager/ipc_server.go:95-99 | two tunnels pinned on each other nest without end |
| Stop.Services.StopChildren | upstream-manager/chainorder.go:152-168 | in a forest of any height, everything within the depth that is left is down, riders before hops, a hop only when none of its riders runs except at the end of the walk, every direct rider is stopped whatever state it was in, and nothing else changed |
| Stop.Services.StillNeeded | upstream-manager/chainorder.go:194-208 | whether another rider is started or starting |
| Stop.Services.StopHiddenParents | upstream-manager/chainorder.go:213-235 | only hidden hops within the depth that is left go, ever further down, each with nothing running on it, and none of those is left running for nobody |
| Stop.Services.StopTunnel | upstream-manager/ipc_server.go:150-168 | in a forest of any height, the tunnel and all within four rides above it are down, riders first; a running tunnel has its hop running unless it is five rides up; every hidden hop within four underneath that still runs has a running rider; everything taken down is stopped and everything else is as before |
| Stop.ClosedUnlessDeep | upstream-manager/chainorder.go:152-155 | the running set stays closed exactly when nothing was running five rides above the stopped tunnel |
| DeepChain.SixHopsAreTooMany | upstream-manager/chainorder.go:152-155 | in every listed chain of six or more started hops, stopping the bottom one leaves the sixth running on a stopped hop |
| DeepChain.StopSixHops | upstream-manager/ipc_server.go:150-168 | the same of six named hops, by stopping the first |
| DeepChain.ChainIsConsistent | upstream-manager/chainorder.go:43-93 | such a listing is a forest without cycles |
| Stop.HopOrder | upstream-manager/chainguard.go:96-108 | the path from the bottom hop to the leaf |
| Stop.TopFirstIsRidersFirst | upstream-manager/chainguard.go:461-471 | taking that path down from the top takes riders down before hops |
| Prefix.ContainsIffMaskedAlike | upstream-conf/config.go:107-120 | masking two addresses alike is agreeing on the leading bits |
| Prefix.MaskedPrefixContains | upstream-conf/config.go:114-120 | a prefix and its masked form contain the same addresses |
| Intersect.MaskSelf | upstream-conf/config.go:114-120 | the shared bytes are masked in place |
| Intersect.IntersectsWith | upstream-conf/config.go:122-157 | true exactly when the two configs, as their bytes are at the call, have a route in common; the receiver is left with every entry masked |
| Intersect.IntersectionIsSymmetric | upstream-conf/config.go:122-157 | the answer the comparison is specified to give does not depend on which config is asked |
| Intersect.CompareBothWays | upstream-conf/config.go:122-157 | two freshly loaded configs give the same answer whichever is the receiver |
| Intersect.CompareWithAll | upstream-manager/ipc_server.go:101-126 | the loop of Start: the first answer is about the config as loaded, all later ones about its masked form |
| Intersect.SecondComparison | upstream-conf/config.go:122-157 | a second comparison answers as a first would for every other config if and only if each host address is among the masked routes and each masked host address among the fresh ones |
| Intersect.SecondComparisonIsWrong | upstream-manager/ipc_server.go:101-126 | a false no and a false yes: 10.0.0.2/24 against 10.0.0.2/32 and against 10.0.0.0/32 |
| Routes.BuildRoutes | upstream-tunnel/addressconfig.go:63-104 | one route per AllowedIP of a family the interface has, every entry left masked |
| Routes.RouteTrichotomy | upstream-tunnel/addressconfig.go:116-129 | the comparator tells any two different routes apart, one way |
| Routes.RouteTransitive | upstream-tunnel/addressconfig.go:116-129 | the comparator is transitive |
| Routes.Deduplicate | upstream-tunnel/addressconfig.go:130-138 | the index loop drops a route equal to its neighbour |
| Routes.InstalledRoutes | upstream-tunnel/addressconfig.go:115-139 | for every sorted arrangement, the result has no repeats and is exactly the masked AllowedIPs that were kept |
| Routes.RoutesAreOnLink | upstream-tunnel/addressconfig.go:84-101 | each route has metric 0 and the unspecified next hop of the family of its destination |
| Routes.CoverageIsKept | upstream-tunnel/addressconfig.go:63-139 | an address has a route exactly when an AllowedIP of a family the interface has an address of contains it |
| PairNames.HiddenHopIsHidden | upstream-conf/chainbuild.go:34-47 | the name given to an outer hop is one the interface hides |
| Names.ValidExactly | upstream-conf/name.go:17-52 | the valid names are those of one to 32 letters, digits and four marks that are not reserved; the check for special characters refuses nothing more |
| PairNames.NextPairName | upstream-conf/chainbuild.go:51-72 | the lowest free candidate, or the fallback when none is free |
| PairNames.SomeCandidateIsFree | upstream-conf/chainbuild.go:51-72 | with fewer than n names taken one of the first n candidates is free, because a name blocks at most one |
| PairNames.NextPairPromise | upstream-conf/chainbuild.go:51-72 | with fewer than 1000 names taken never the fallback; the name and its hidden hop are free and valid |
| NaturalSort.RunsAreMaximal | upstream-conf/name.go:63-78 | the runs make up the text and digits take turns with the rest |
| NaturalSort.TunnelNameIsLess | upstream-conf/name.go:95-112 | the loops compute the order on token sequences |
| NaturalSort.StrictWeakOrder | upstream-conf/name.go:80-112 | irreflexive, asymmetric, transitive, with transitive incomparability, on all names |
| NaturalSort.IncomparableIffSameTokens | upstream-conf/name.go:80-112 | two names are alike exactly when their tokens are equal, overlong digit runs included |
| NaturalSort.NumbersByValue | upstream-conf/name.go:65-93 | digit runs that fit compare by value |
| NaturalSort.TextInOrder | upstream-conf/name.go:80-112 | names without digits or blanks are in the order of their lower-case text, first difference first |
| NaturalSort.NumbersFirst | upstream-conf/name.go:80-93 | a name that begins with a number that fits comes before one that does not begin with a digit |
| NaturalSort.BeginningsFirst | upstream-conf/name.go:95-112 | a name comes before what it is a beginning of, unless a number goes on |
| NaturalSort.SpacingAside | upstream-conf/name.go:65-78 | names of two words are alike whatever blanks stand around and between them, and whatever the letter case |
| Lex.LexDiffers | upstream-conf/name.go:80-93 | the order of texts is decided where they first differ |
| ChainBuild.KeepDns | upstream-conf/chainipv6.go:63-78 | IPv6 resolvers stay only on a hop that can reach them |
| ChainBuild.HopPeers | upstream-conf/chainbuild.go:173-182 | peers are copied, and a default route becomes the halves |
| ChainBuild.Build | upstream-conf/chainbuild.go:134-187 | the two hops, or the first problem found |
| ChainBuild.SplitCoversOnce | upstream-conf/chainipv6.go:41-58 | the halves contain every IPv4 address once, and every IPv6 address once when the hop has IPv6 |
| ChainBuild.HasDefaultRoute | upstream-tunnel/interfacewatcher.go:45-81 | the six flags find a default route or both halves of one |
| ChainBuild.BuiltChain | upstream-conf/chainbuild.go:134-187 | a peer of the inner hop with 0.0.0.0/0 or ::/0 covers every address of the hop's families exactly once, and the tunnel sees a default route for them |
| ChainBuild.BuildsWhen | upstream-conf/chainbuild.go:134-156 | a chain is built exactly from two configs with an endpoint each, an adapter, and a name valid for both hops; otherwise the error is that of the first thing missing |
| ChainBuild.BuiltOuterHop | upstream-conf/chainbuild.go:157-166 | the outer hop installs no routes, has no resolvers and an MTU of 1420, is pinned to the adapter, and keeps its keys, addresses, options and peers with their AllowedIPs |
| ChainBuild.BuiltInnerHop | upstream-conf/chainbuild.go:168-184 | the inner hop installs its routes, has an MTU of 1360, and keeps its keys, addresses, options, search domains and peers |
| ChainBuild.BuiltResolvers | upstream-conf/chainbuild.go:174-179 | the resolvers of the inner hop are its own or the two defaults, without those it cannot reach |
| ChainBuild.BuiltAreSiblings | upstream-manager/chainmanager.go:29-50 | the two hops are siblings, the outer one hidden, the inner one riding on it |
| ChainFile.BuiltChainReadsBack | upstream-conf/chainbuild.go:134-187 | a chain built from printable configs reads back from its two files as it was built |
| Debounce.Monitor.OnBump | upstream-tunnel/defaultroutemonitor.go:131-141 | a notification arms the timer, or updates at once when the burst is older than two seconds |
| Debounce.Monitor.OnExpire | upstream-tunnel/defaultroutemonitor.go:124-129 | the timer runs out and its callback waits for the mutex |
| Debounce.Monitor.OnTimer | upstream-tunnel/defaultroutemonitor.go:124-129 | a callback that waited ends the burst and updates, even when the timer has been reset or stopped since |
| Debounce.BumpIsAnswered | upstream-tunnel/defaultroutemonitor.go:121-141 | in every timed run, overtaken callbacks included, each bump is followed by an update within 2150 ms plus the lateness of the callbacks |
| Debounce.BumpIsAnsweredInTime | upstream-tunnel/defaultroutemonitor.go:121-141 | within 2150 ms when the timers are on time |
| Debounce.NoUpdateTooSoon | upstream-tunnel/defaultroutemonitor.go:131-141 | as long as no callback is overtaken, the timer updates 150 ms after the latest bump at the soonest |
| Debounce.BumpUpdatesWhen | upstream-tunnel/defaultroutemonitor.go:131-141 | a bump updates by itself exactly when the first bump not yet answered is more than two seconds old |
| Debounce.OvertakenCallback | upstream-tunnel/defaultroutemonitor.go:124-141 | a run in which a late callback leaves the timer armed with no burst |

## Left out

- The filter engine, services, adapters, clocks and the disk are not modelled beyond the answers they give, which are arbitrary.
- permitTunInterface, permitLoopback, permitDHCPIPv4 and blockAll have no body in this repository; their filters follow the header comment of fork-sources/chainfirewall.go, with DHCPv4 taken as UDP from port 68 to port 67, and the transaction is all or nothing.
- Migration.ConfigStore.Migrate: sharing violations and the timer that retries them are refusals like any other.
- Encryption is a sealed text that only the same tunnel name opens; file names are told apart by letter case in `Store`, and `Forest` takes listed names as distinct without regard to it.
- Encodings other than ASCII, UTF-16 detection and localised messages.
- The wording of the editor banners is a parameter; only their being comment lines matters.
- ToUAPI and FromUAPI, which are not inverse by design, and the statistics of peers.
- Parser.FromWgQuick: what is left of the program after a nil prefix is used; the text is said to stop it.
- Start.Manager.StartTunnel: the asynchronous stop of intersecting tunnels is reduced to the refusal it can cause, and the arming of the kill switch that follows an install is left to `Lock`.
- Start.Manager.StartHopWithRetry: the pause between two tries, which only takes time.
- Stop.Services.StopTunnel: states can be read and uninstalls succeed; chainBeforeStop, which lifts the watch and the kill switch, is a separate step.
- Lock.ChainLock.Arm: each call is one atomic step; races between unserialised calls and the fallback guard process are outside.
- Intersect.IntersectsWith: the AllowedIPs of all peers are one list in the order of the nested loops.
- Routes.BuildRoutes: the same, and the default-route flags and the metrics set from them are left out.
- Watch.ChainWatch: the health check and the repair itself are inputs; the log text is not kept.
- Guard.HoldKillSwitch: the endless loop is every finite run of it; heartbeat messages are not kept.
- Windows, the tray, the updater, IPC encoding, key generation and the scripts: no provable core.
