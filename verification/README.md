# A verified model of anyNS

anyNS resolves names from several naming systems and runs the services around
that: it issues certificates, talks DNS on the wire, logs queries and forwards
them, detects abuse, routes requests to resolver plugins and maintains zones.
This project models its stateful and arithmetic core in Dafny and proves what
the code relies on.  `dafny verify dfyconfig.toml` checks all of it.

| files | part of the system |
|---|---|
| `Text`, `Numbers`, `Hex` | strings, decimal and hexadecimal text as the Go library treats them |
| `DnsName`, `NameLaws` | conversion of names to their ASCII form, and laws of names in terms of their labels |
| `CertificateDomains`, `CertificateJobs`, `CertificateInvariant`, `CertificatePreservation`, `CertificateTheorems`, `CertificateRevocations`, `CertificateOutcomes`, `CertificateManager` | the certificate job manager |
| `DnsWire`, `DnsReader`, `DnsResponse`, `DnsResponseTheorems`, `DnsAnswers` | the DNS wire codec of the HNS backend |
| `BoundedLog`, `EventLog`, `RetryQueue`, `RetryBounds`, `RetryClient` | the DNS log and the retry queue, bounded buffers with a file behind them |
| `Keccak`, `KeccakSponge`, `Namehash`, `Abi` | Keccak-256, ENS name hashing and the Ethereum ABI codec |
| `Detectors`, `DetectorRuns` | the sliding-window detectors |
| `Router` | the plugin registry and its answer cache |
| `Soa` | updates of SOA records |

## How the parts are modelled

*Certificates.*  `CertificateJobs` describes the manager as a state machine with
one event for each section under its mutex, each file rename, each answer of the
issuer, a crash at any point between two of them, and a boot.  Every write may
fail.  The issuer answers anything.  `update` has no guard on the status, so the
legality of every transition comes from the global invariant of
`CertificateInvariant`, which `CertificatePreservation` proves for all
interleavings.  `CertificateManager` is the object itself: a manager is
valid when some run of the machine leads to the state of its fields, each method
is proved to be one event, and so every theorem about reachable states holds of
the object between any two of its sections (`Manager.Guarantees`).
`CertificateRevocations` and `CertificateOutcomes` say what the issuer's answers
lead to, in terms of the events of a run.

*Wire format.*  `DnsWire.Spells` says which labels an offset stands for, with
pointers in either direction; `DnsResponse.Meaning` says which answer a packet is.
The reader and the parser are loops proved against these definitions, and
`DnsAnswers` says what they make of every packet written octet by octet.  RFC 1035,
sections 2.3.4, 3.1, 4.1 and 4.1.4, gives the formats.

*Log and queue.*  Both keep the newest entries in memory and append to a file.  The
queue's drain runs in three phases beside other goroutines; `RetryQueue` treats
it as a state machine whose events are the phases, single deliveries, enqueues
and restarts.  `RetryBounds` says exactly how often a batch can be tried, and
`RetryClient` is the client object, whose sections are events of the machine.

*Keccak.*  `KeccakSpec` is FIPS 202, section 3.2, on the bits of the state; words
are lists of 64 bits, the lowest first, so that 64-bit operations are modelled
exactly.  The digest uses the original Keccak padding without suffix bits.

*Where the code does less than one may expect.*  A revocation that the issuer has
accepted but that no save writes out before a crash is forgotten; the save of any
other job writes it out as well.  With an attempt limit below one, Close leaves
jobs pending; configuration loading rejects such a limit
(internal/config/config.go:480-482), so only a direct caller of NewManager can
set it.  A retry limit of one still allows two deliveries, and every drain that a
restart cuts off allows one more.  Cache keys are joined without escaping, and
so are the keys of the subdomain detector, so that different requests or clients
can share one.  Each of these is a lemma that exhibits the case or says for all
inputs exactly when it occurs.

## Assumptions

- The Unicode case tables and the IDNA library are an oracle (`Text.Conforms`):
  lower-casing is idempotent, fixes ASCII other than capitals and keeps white
  space apart from the rest; a converted label is not empty and consists of
  visible ASCII characters without dots.
- SHA-256 is injective on the idempotency keys in use (`JobId`).
- A rename is atomic and durable; the JSON line encoding is injective.
- The clock does not fall, where a statement says so.
- A PowerDNS server answers a zone under its own name, writes SOA types in
  upper case, and replaces a record set in place; `dnsrr.Normalize` leaves the
  text of a canonical SOA record alone.

## Model

| member | source | states |
|---|---|---|
| DnsName.ConvertName | internal/dnsname/idna.go:19-44 | the loop that overwrites the label list answers what the conversion of the labels one by one gives, with the error of the first label that fails |
| DnsName.AcceptedIsCanonical | internal/dnsname/idna.go:19-92 | every accepted name is empty, the root, or dot-terminated with labels of 1 to 63 octets and at most 253 octets before the final dot, in lower case and without blanks; it is empty only for blank input |
| DnsName.CanonicalNameIsFixed | internal/dnsname/idna.go:19-44 | a canonical name is accepted and answered unchanged |
| DnsName.ToAsciiIdempotent | internal/dnsname/idna.go:19-44 | converting an accepted name again changes nothing |
| DnsName.NormalizeIdempotent | internal/plugins/types.go:78-85 | normalising a query name twice is normalising it once |
| NameLaws.EverySpellingIsTheName | internal/dnsname/idna.go:19-44 | every spelling of a canonical name in capitals or small letters, with or without final dot, is accepted as that name, and is normalised to it as a query name |
| NameLaws.ToAsciiIff | internal/dnsname/idna.go:19-92 | labels written with any of the four dots, with or without a final one, are accepted iff each has an ASCII form of at most 63 octets (itself if it is visible ASCII, else that of the IDNA library) and the forms with their dots take at most 253; the answer is the forms in lower case, with a dot behind each |
| CertificateDomains.Normalize | internal/certificates/manager.go:402-432 | the loop with its set of seen names collects the distinct normal forms in order, sorts them, and reports the first bad entry |
| CertificateDomains.CollectMembers | internal/certificates/manager.go:410-428 | collection succeeds iff every entry has a normal form, and its result has no repetition and exactly the normal forms as members |
| NameLaws.EverySpellingIsTheDomain | internal/certificates/manager.go:406-424 | a storable domain, wildcard or not, in capitals or small letters and with or without final dot, is normalised to itself |
| NameLaws.DomainsAccepted | internal/certificates/manager.go:402-432 | a list is accepted iff it has 1 to 10 entries and each has a normal form |
| CertificateDomains.NormalizeDomainsIdempotent | internal/certificates/manager.go:402-432 | an accepted list is its own normal form |
| CertificateDomains.OrderInsensitive | internal/certificates/manager.go:402-432 | two lists with the same members are accepted together and give the same list, whatever their order and repetitions |
| CertificateDomains.SameJoinedIsEquality | internal/certificates/manager.go:113-117 | comparing stored lists joined with NUL is comparing the lists |
| CertificatePreservation.StepPreserves | internal/certificates/manager.go:95-400 | every critical section, file rename, issuer return, crash and boot keeps the global invariant (slot, program counters, files behind settled jobs, disk image behind memory) |
| CertificatePreservation.RunPreserves | internal/certificates/manager.go:95-400 | so does every interleaving of them, from the empty storage on |
| CertificateTheorems.CrashSafety | internal/certificates/manager.go:312-400 | in every reachable state, up or down, a job stored or held as issued or revoked has its chain and key on disk, both from the answer to the attempt it records; every acknowledged job is on disk, and in memory while the process is up |
| CertificateTheorems.OneIssuanceAtATime | internal/certificates/manager.go:265-310 | at most one job is validating or finalizing |
| CertificateTheorems.RunsNeverStuck | internal/certificates/manager.go:265-310 | while a run exists some run can take a step: the slot is never lost |
| CertificateTheorems.GuardsFollow | internal/certificates/manager.go:265-310 | a run that reads its job finds it, a run that leaves holds the slot and a revocation that commits finds its job: the three guards of the machine that the code does not test follow from the program counters |
| CertificateTheorems.OnlyLegalEdges | internal/certificates/manager.go:202-323 | although update checks no status, within one process every record stays as it is or follows one edge: pending to validating (attempt plus one, within the limit, no error), validating or finalizing to finalizing, either of them to issued (with both dates), pending (attempts left) or failed (no attempt left), issued or revoked to revoked (with its time); nothing else in the record changes |
| CertificateTheorems.RestartEdges | internal/certificates/manager.go:336-362 | whatever writes have failed, a crash and a boot keep every job with its domains: what is settled on disk was settled in memory with the same attempt and comes back as it stands there, all else comes back failed |
| CertificateTheorems.SavedRestart | internal/certificates/manager.go:336-362 | with working writes exactly the unfinished jobs change, into failed ones |
| CertificateTheorems.RevocationSurvivesIffWritten | internal/certificates/manager.go:202-234 | from the commit through any run of events to a crash and a boot, the job comes back revoked iff the state file held it revoked before, or the commit or any later event, of whatever job, wrote the file |
| CertificateTheorems.RevokedAlong | internal/certificates/manager.go:202-234 | within one process a revoked job stays revoked, and the state file holds it revoked iff it did before or was written since |
| CertificateTheorems.FailedIsFinal | internal/certificates/manager.go:265-362 | a failed job never becomes anything but failed again, over whole runs with crashes and failed saves |
| CertificateTheorems.FailedFromMemory | internal/certificates/manager.go:298-305 | this holds from the moment the job is failed in memory |
| CertificateTheorems.RevokedIsFinal | internal/certificates/manager.go:202-234 | a revocation that the state file holds stays for ever, over runs with crashes and failed saves |
| CertificateTheorems.OneRunPerKey | internal/certificates/manager.go:95-141 | over whole runs with restarts at most one run starts per idempotency key; attempts stay within the limit; the revocation time is set iff the job is revoked |
| CertificateTheorems.Replay | internal/certificates/manager.go:112-118 | a replayed key returns the stored job iff the domains normalise to its list, and never starts anything |
| CertificateTheorems.ReplayReordered | internal/certificates/manager.go:112-118 | replaying the same domains in any order returns the same job |
| CertificateTheorems.RenewKeepsDomains | internal/certificates/manager.go:181-200 | the job that Renew returns has exactly the domains of its parent, whatever happens between its two sections |
| CertificateTheorems.CloseLeavesNothingUnfinished | internal/certificates/manager.go:143-148 | when Close has returned, the unfinished jobs are exactly those a limit below one kept from being tried; with a limit of at least one every job is issued, failed or revoked |
| CertificateTheorems.CloseCanLeavePending | internal/certificates/manager.go:143-148 | under every limit below one a job can stay pending |
| CertificateTheorems.CloseFinishesIffLimit | internal/certificates/manager.go:143-148 | so Close can return with an unfinished job iff the limit is below one |
| CertificateRevocations.RevokedOnlyWithConsent | internal/certificates/manager.go:202-234 | over whole runs, with crashes and failed saves, a job is revoked in memory or on disk, or about to be by a call, only if the run holds an accepting answer of the issuer to a revocation of this job |
| CertificateRevocations.AnswerDecides | internal/certificates/manager.go:220-222 | the answer of the issuer changes no record; the commit of this call is enabled iff it accepts, and a refused call is over |
| CertificateRevocations.AcceptedIsRevoked | internal/certificates/manager.go:220-233 | once the issuer has accepted, whatever the other calls and runs do, the commit can be made and makes the job revoked with its time, on disk too if the save works |
| CertificateRevocations.RevocationRunsThrough | internal/certificates/manager.go:202-234 | for every issued job check, read, an accepting answer and commit are a run of the machine, and it revokes this job and changes no other |
| CertificateOutcomes.StartOutcome | internal/certificates/manager.go:95-141 | a job is created iff the domains have a normal form, the key is usable, the manager is open, the key is new and the save works; it then is the only new record, pending, with one run waiting for the slot; a closed manager answers an error and changes nothing |
| CertificateOutcomes.ClosedForGood | internal/certificates/manager.go:95-148 | without a restart a closed manager stays closed, and no job and no run is ever added |
| CertificateOutcomes.AttemptOutcome | internal/certificates/manager.go:269-323 | from the loop test on, for every answer of the issuer and every outcome of the two writes, the attempt runs through and ends with the job issued iff the answer is a certificate and both writes worked, with its two files; otherwise failed at the last attempt and pending before, with the error of the step that failed |
| CertificateOutcomes.RefusedUpToLimit | internal/certificates/manager.go:269-310 | from attempt a on the issuer can refuse exactly max - a + 1 times, and then the job is failed at its last attempt |
| CertificateOutcomes.RenewOutcome | internal/certificates/manager.go:181-200 | Renew reaches Start iff the job is issued and, unless forced, due by the expiry that the issuer gave it; what it then creates has the domains of its parent and names it, and the domains are never refused |
| CertificateManager.NewManager | internal/certificates/manager.go:76-93 | on whatever earlier processes left behind, a manager comes up with no unfinished job, unless unfinished jobs cannot be written back; then nothing changes |
| CertificateManager.Manager.Load | internal/certificates/manager.go:336-362 | the loop over the stored records turns the unfinished ones into failed ones and writes them back; the whole is the boot event |
| CertificateManager.Manager.Start | internal/certificates/manager.go:95-141 | an answered job has the requested domains in normal form and is in the state file before the answer; an error changes nothing, also when the save fails; the whole is one event of the machine |
| CertificateManager.Manager.AcquireSlot | internal/certificates/manager.go:265-267 | when a run takes the slot no job is in issuance |
| CertificateManager.Manager.BeginAttempt | internal/certificates/manager.go:269-274 | behind the loop test the job is validating with this attempt iff one is left, and no other job is in issuance |
| CertificateManager.Manager.WriteKey | internal/certificates/manager.go:325-334 | behind the second rename chain and key on disk stem from the same answer of the issuer to this attempt |
| CertificateManager.Manager.EndAttempt | internal/certificates/manager.go:289-309 | an attempt ends issued, pending with attempts left or failed without; it is never issued without both files of its answer |
| CertificateManager.Manager.ReleaseSlot | internal/certificates/manager.go:265-268 | the slot was held by this run alone; its job is finished unless the limit kept it from trying |
| CertificateManager.Manager.RevokeRead | internal/certificates/manager.go:236-242 | the second check cannot fail: what is read is the chain of the answer to the attempt that the job records |
| CertificateManager.Manager.RevokeAnswered | internal/certificates/manager.go:220-222 | the answer leaves jobs and state file alone; an acceptance leads this call to its commit, a refusal ends it |
| CertificateManager.Manager.RevokeCommit | internal/certificates/manager.go:223-233 | the commit looks neither for the job nor at its status again, and need not: the job is there, issued or revoked, its revocation has been accepted by the issuer, and it stays backed by its files |
| CertificateManager.Manager.Guarantees | internal/certificates/manager.go:95-400 | between any two sections of a valid manager one job at most is in issuance, settled jobs have both files, revoked jobs have been accepted for it by the issuer, acknowledged jobs are in memory and in the state file, and once a closed manager has no run left every job is finished |
| DnsWire.SpellsUnique | internal/plugins/hns/dns_backend.go:570-623 | labels and pointers from one offset spell at most one name |
| DnsWire.LongWalkIsCyclic | internal/plugins/hns/dns_backend.go:581-598 | more jumps than the packet has octets means that an offset repeats, by counting |
| DnsWire.CycleNeverSpells | internal/plugins/hns/dns_backend.go:581-598 | from such an offset no finite name can be read |
| DnsReader.Read | internal/plugins/hns/dns_backend.go:570-623 | reading succeeds exactly when following labels and pointers spells a name of at most 255 octets, and answers it with the next offset; each fault is one that the walk from the offset meets, the length only when the labels met exceed it, and the jump limit only on a genuine cycle; the loop ends |
| DnsReader.WriteName | internal/plugins/hns/dns_backend.go:327-351 | writing succeeds iff ToASCII accepts the name and the labels fit, and appends exactly their encoding |
| DnsReader.WriteLabels | internal/plugins/hns/dns_backend.go:333-350 | the label loop succeeds iff all labels and the whole fit, and appends lengths, labels and the root octet |
| DnsReader.AcceptedNamesFit | internal/plugins/hns/dns_backend.go:327-351 | an accepted name always fits, in two octets more than the name without its final dot, at most 255; one octet for the root |
| DnsReader.NameRoundTrip | internal/plugins/hns/dns_backend.go:570-623 | a written canonical name is read back with the right next offset wherever it stands in a packet; the empty name is read as the root |
| DnsReader.WrittenIsRead | internal/plugins/hns/dns_backend.go:327-351 | whatever spelling ToASCII accepts, what is written for it fits and is read back as the ASCII name, wherever it stands |
| DnsReader.PointerRoundTrip | internal/plugins/hns/dns_backend.go:581-598 | the same through any pointer to it, forwards or backwards, below 2^14 |
| DnsReader.ReadIffWithinLimit | internal/plugins/hns/dns_backend.go:570-623 | labels on the wire are read iff they take at most 255 octets with the root octet |
| DnsReader.RefusedOctets | internal/plugins/hns/dns_backend.go:577-617 | length octets from 64 to 191 are refused, and so is a name, label or pointer that the packet cuts off or that leads out of it, each with its fault |
| DnsResponse.FormatText | internal/plugins/hns/dns_backend.go:512-523 | character strings are cut out of TXT data iff their lengths add up exactly |
| DnsResponse.FormatRData | internal/plugins/hns/dns_backend.go:488-568 | record data is accepted and formatted exactly as its type demands; a name in it must end within the record or be rejected |
| DnsResponse.SkipRR | internal/plugins/hns/dns_backend.go:472-486 | one record is passed iff its header and data lie in the packet |
| DnsResponse.ReadAnswers | internal/plugins/hns/dns_backend.go:410-448 | the answer loop keeps the records it can format, in order, and tracks the least positive TTL |
| DnsResponse.Parse | internal/plugins/hns/dns_backend.go:353-470 | the answer to a packet is its meaning: header, question, records and a packet that ends with the last record |
| DnsResponseTheorems.NoErrorTilesPacket | internal/plugins/hns/dns_backend.go:353-470 | behind a NOERROR answer header, question and all counted records of the three sections tile the packet exactly |
| DnsResponseTheorems.AnswersBearQueryName | internal/plugins/hns/dns_backend.go:410-448 | every record returned bears the query name |
| DnsResponseTheorems.SameTextIff | internal/plugins/hns/dns_backend.go:415-436 | names are compared as texts: two lists of nonempty labels have one text iff they have the same pieces between dots |
| DnsResponseTheorems.DotlessTextDecides | internal/plugins/hns/dns_backend.go:415-436 | so the text determines the labels when these contain no dot octet |
| DnsResponseTheorems.AnswerTtl | internal/plugins/hns/dns_backend.go:430-470 | the TTL is the least positive TTL among the records returned, or 60 |
| DnsResponseTheorems.TextDecodes | internal/plugins/hns/dns_backend.go:512-523 | every list of strings of at most 255 octets decodes from its encoding, to their concatenation |
| DnsResponseTheorems.TextEncoded | internal/plugins/hns/dns_backend.go:512-523 | TXT data that decodes is the encoding of such a list |
| DnsAnswers.AnswerRoundTrip | internal/plugins/hns/dns_backend.go:353-470 | for every packet written octet by octet (header, question, records of the three sections with names given by labels, by a pointer to the question or by both): it is refused unless identifier, response bit, question count, name, type and class fit the query; then code 3 is NXDOMAIN and any other code but zero, or octets behind the sections, an error; else the answer is exactly the records of class IN and the queried name with usable data, in order, each with its type, its TTL and its values, and the least positive TTL or 60 |
| DnsAnswers.ContentReads | internal/plugins/hns/dns_backend.go:488-568 | written data of each type are formatted to the values written at their places in RFC 1035, section 3.3, or the RFC of the type; what follows a name in the data is ignored; data too short for their type, and names that do not end within the data, are unusable |
| DnsAnswers.ItemReads | internal/plugins/hns/dns_backend.go:410-429 | a written record is read with its name, the type, class and TTL that its octets spell, and the place of its data |
| DnsResponseTheorems.BuildQuery | internal/plugins/hns/dns_backend.go:299-317 | a query is its header, the encoded name, type and class, and fails iff the name cannot be written |
| DnsResponseTheorems.EchoedQueryIsEmptyAnswer | internal/plugins/hns/dns_backend.go:299-470 | a query built for any name that can be asked, sent back with the response bit set, parses as an empty NOERROR answer to it iff the written and the given name have the same normal form, and as an error otherwise |
| DnsResponseTheorems.BackendQNameIsCanonical | internal/plugins/hns/dns_backend.go:122-166 | the name asked of the backend is canonical and not the root |
| DnsResponseTheorems.ResolvedNamesAreTheOriginal | internal/plugins/hns/dns_backend.go:168-185 | after restoring, every answer record bears the original query name |
| NameLaws.BackendCutsRoot | internal/plugins/hns/dns_backend.go:122-138 | the name asked of the backend lacks the last label iff this is hns or hsd and not the only one |
| NameLaws.BackendAsks | internal/plugins/hns/dns_backend.go:122-166 | what is left then is asked iff its last label consists of letters, digits and inner hyphens |
| NameLaws.RestoreMovesNames | internal/plugins/hns/dns_backend.go:168-185 | a name at or below the backend name is moved to the same place at or below the original one, label by label, and any other is left alone |
| DnsResponseTheorems.BackendQueryFits | internal/plugins/hns/dns_backend.go:122-138 | a query for such a name can always be built |
| BoundedLog.PushTracksFile | internal/dnslog/dnslog.go:113-124 | appending to the bounded buffer and to the file keeps the buffer equal to the end of the file |
| BoundedLog.LoadedIsLast | internal/dnslog/dnslog.go:308-330 | loading a file of any length leaves exactly its newest entries |
| EventLog.BufferIsEndOfFile | internal/dnslog/dnslog.go:101-124 | after any run of appends and restarts the file holds every event logged and the buffer its newest, so one more restart changes nothing |
| EventLog.Store.constructor | internal/dnslog/dnslog.go:94-111 | a store is loaded from its file with the limit, 1000 by default |
| EventLog.Store.Append | internal/dnslog/dnslog.go:113-124 | buffer and file grow by the event, and the buffer is trimmed in place |
| EventLog.ReverseInPlace | internal/dnslog/dnslog.go:177-181 | the two-ended swap loop reverses the list |
| EventLog.Store.FilteredOrderedEvents | internal/dnslog/dnslog.go:168-183 | a copy with the matching events, reversed for descending order |
| EventLog.OrderedCounts | internal/dnslog/dnslog.go:168-183 | a listing holds every matching event as often as the buffer and no other |
| EventLog.NewestEnd | internal/dnslog/dnslog.go:168-183 | a new matching event comes first in descending order and last in any other |
| EventLog.Store.ListFiltered | internal/dnslog/dnslog.go:130-144 | the tail of the list by default, the head for an explicit order |
| EventLog.ListingShows | internal/dnslog/dnslog.go:130-144 | a listing with a limit shows the newest matching events, oldest first by default and newest first in descending order, and the oldest ones for any other order |
| EventLog.TailIsReversedDescending | internal/dnslog/dnslog.go:130-144 | the default listing is the descending listing with the same limit, read backwards |
| EventLog.Store.ListFilteredPage | internal/dnslog/dnslog.go:146-166 | the page from the cursor, clamped, with the next cursor only when more follows |
| EventLog.CursorRoundTrip | internal/dnslog/dnslog.go:185-195 | a printed cursor is parsed back |
| EventLog.NextCursorAdvances | internal/dnslog/dnslog.go:146-166 | a page with a next cursor is full and the cursor stands right behind it; the last page reaches the end |
| EventLog.PagesCoverTheRest | internal/dnslog/dnslog.go:146-166 | from any cursor, valid or not, following the cursors ends and shows the rest of the list, in full pages but for the last |
| EventLog.PaginationIsComplete | internal/dnslog/dnslog.go:146-195 | from the empty cursor the pages together are the filtered, ordered list, without gap or repeat, for every limit |
| Numbers.ParseItoa | internal/powerdns/client.go:796-802 | parsing a printed number gives it back iff it is in range |
| RetryQueue.DrainIsConserved | internal/honeypot/client.go:343-372 | attempted equals delivered plus retained plus dropped, and the entries kept are those retained and those never tried |
| RetryQueue.DrainAccounts | internal/honeypot/client.go:351-372 | over the positions of the batch: delivered counts those delivered, dropped those that failed and have reached the limit, attempted both and those retained after failing; retained are, in order, exactly the cancelled ones unchanged and those that failed below the limit with one more attempt and the new error |
| RetryQueue.CommitKeepsTheRest | internal/honeypot/client.go:374-384 | when k entries were trimmed during delivery, the commit is the retained entries followed by everything from position s + k on; the branch for a shrunken queue is dead; the bound holds |
| RetryQueue.CommitLosesNothingIffNoOverflow | internal/honeypot/client.go:374-384 | nothing is lost or reordered iff the enqueues did not overflow the queue |
| RetryQueue.StepPreserves | internal/honeypot/client.go:131-167 | every step of sending, queueing, draining, committing and restarting keeps the invariant: queue equal to the end of the file, batches distinct, attempts on record |
| RetryQueue.RunIsBounded | internal/honeypot/client.go:131-167 | over every run the queue stays within its bound and no batch is tried more than max(M, 2) times, plus once for each drain that a restart cut off |
| RetryBounds.BoundIsAttained | internal/honeypot/client.go:131-167 | for every capacity, every limit M and every k some run with exactly k drains cut off tries a batch exactly max(M, 2) + k times |
| RetryBounds.BoundIsExact | internal/honeypot/client.go:131-167 | so max(M, 2) + k is the least bound: a run with k drains cut off can pass a given number of tries iff the number is below it |
| RetryBounds.WithinLimitIffUninterrupted | internal/honeypot/client.go:131-167 | all batches of all runs with k drains cut off stay within max(M, 2) iff k is zero |
| RetryBounds.UninterruptedTries | internal/honeypot/client.go:131-167 | in a run whose restarts cut off no drain the bound is max(M, 2) |
| RetryBounds.InterruptedIsCutOff | internal/honeypot/client.go:131-167 | the k of these bounds is the number of restarts in the run that find a drain in flight |
| RetryBounds.LimitIsPassedIffOne | internal/honeypot/client.go:131-160 | without a drain cut off a batch can be tried more often than the limit iff the limit is one |
| RetryBounds.InterruptedDrainIsForgotten | internal/honeypot/client.go:343-392 | a drain of any queue that a restart cuts off before its commit, whatever it has delivered, leaves queue and file as if only the other goroutines had run |
| RetryQueue.DrainCommits | internal/honeypot/client.go:343-392 | in every run a drain with enqueues between its phases commits the result of its deliveries and then the rest of the queue, in order |
| RetryQueue.DeliverSelected | internal/honeypot/client.go:351-372 | the delivery loop with its cancelled, delivered, dropped and retained outcomes |
| RetryQueue.FailedQueue.constructor | internal/honeypot/client.go:269-281 | the queue is loaded with its bound, 10000 by default |
| RetryQueue.FailedQueue.Enqueue | internal/honeypot/client.go:283-308 | queue and file grow by the stamped delivery, and the queue is trimmed in place |
| RetryQueue.FailedQueue.Commit | internal/honeypot/client.go:374-391 | the queue becomes retained and remaining entries, and the file is rewritten |
| RetryQueue.FailedQueue.Drain | internal/honeypot/client.go:343-392 | the three phases in a row |
| RetryClient.Client.constructor | internal/honeypot/client.go:269-281 | a client on a queue loaded from what any earlier run left in the file continues that run with a restart |
| RetryClient.Client.DeliverOrQueue | internal/honeypot/client.go:131-146 | the first attempt, and after its failure the enqueueing, are two steps of the run |
| RetryClient.Client.Drain | internal/honeypot/client.go:148-167 | snapshot, deliveries and commit are steps of the run, with the accounted result, under the limit of five when none is configured |
| RetryClient.Client.Guarantees | internal/honeypot/client.go:131-167 | so between any two sections the queue of the object is within its capacity, holds no batch twice, is not shorter than the snapshot of a drain in flight, and the bound on tries holds |
| KeccakTables.RotationIsOffset | internal/plugins/wave1/plugin.go:702-702 | the rotation table is (t + 1)(t + 2) / 2 along the walk of FIPS 202, section 3.2.2, modulo 64 |
| KeccakTables.RoundConstantIs | internal/plugins/wave1/plugin.go:694-701 | each round constant has exactly the bits that the shift register of FIPS 202, section 3.2.5, puts out |
| Keccak.ThetaInPlace | internal/plugins/wave1/plugin.go:704-716 | the three theta loops, in place |
| Keccak.ThetaAgrees | internal/plugins/wave1/plugin.go:704-716 | they compute theta of FIPS 202 on the bits of every state |
| Keccak.RhoPi | internal/plugins/wave1/plugin.go:717-722 | the fused rotate-and-permute loop |
| Keccak.RhoPiAgrees | internal/plugins/wave1/plugin.go:717-722 | it is rho followed by pi |
| Keccak.ChiFrom | internal/plugins/wave1/plugin.go:723-727 | the chi loop from the copy back into the state |
| Keccak.ChiAgrees | internal/plugins/wave1/plugin.go:723-727 | it is chi |
| Keccak.IotaAgrees | internal/plugins/wave1/plugin.go:728-728 | adding the constant is iota |
| Keccak.KeccakF1600 | internal/plugins/wave1/plugin.go:693-730 | the in-place permutation is the 24 rounds of Keccak-f[1600] on every state |
| KeccakSponge.XorKeccakBlock | internal/plugins/wave1/plugin.go:687-691 | the words of the block are added to the state |
| KeccakSponge.LastBlockIsPadded | internal/plugins/wave1/plugin.go:674-677 | the last block is the rest of the message and pad10*1, also when one octet holds both of its ones |
| KeccakSponge.LegacyKeccak256 | internal/plugins/wave1/plugin.go:666-685 | the digest of every input is the sponge of FIPS 202, section 4, with rate 1088 and the original Keccak padding |
| Namehash.EnsNamehash | internal/plugins/wave1/plugin.go:630-649 | the loop from the last label to the first gives the hexadecimal node of EIP-137, and an error iff a label is blank |
| Namehash.DottedNameHasItsNode | internal/plugins/wave1/plugin.go:630-649 | a dotted name of plain labels, with or without final dot, has the node of the list of its labels |
| Namehash.EveryCaseHasTheNode | internal/plugins/wave1/plugin.go:630-649 | so has every name that is such a name in lower case |
| Namehash.SubnameNode | internal/plugins/wave1/plugin.go:630-649 | a subname hashes its parent node with the digest of its label |
| Hex.RoundTrip | internal/plugins/wave1/ccip.go:310-310 | decoding encoded octets gives them back |
| Hex.FormatDecodes | internal/plugins/wave1/ccip.go:321-327 | the padded hexadecimal text of a number decodes to octets of that value |
| Abi.AbiOffset | internal/plugins/wave1/ccip.go:165-177 | a word is accepted iff its 256-bit value is at most the limit, and then this value is returned, despite the truncating division of a possibly negative number; no intermediate value passes the larger of limit and 255 |
| Abi.AbiWordUint | internal/plugins/wave1/plugin.go:605-617 | the same against 2^31 - 1, with -1 for refusal |
| Abi.OffsetOfWord | internal/plugins/wave1/ccip.go:165-177 | reading a written word gives the number iff it is within the limit |
| Abi.PutAbiUint | internal/plugins/wave1/ccip.go:321-328 | a number is written as its 32-octet word and nothing else changes |
| Abi.EncodeAbiBytes | internal/plugins/wave1/ccip.go:313-319 | the standard encoding of a byte string |
| Abi.EncodeCcipCallback | internal/plugins/wave1/ccip.go:304-311 | selector, two head words and two byte strings as hexadecimal text |
| Abi.CallbackRoundTrip | internal/plugins/wave1/ccip.go:304-311 | decoding that text at its head words returns the response and the extra data |
| Abi.AbiStringArray | internal/plugins/wave1/ccip.go:119-144 | the element loop reads the array or refuses it |
| Abi.PayloadDecodes | internal/plugins/wave1/ccip.go:80-117 | any payload whose heads lead to encodings of the fields decodes to the fields, whatever the layout, iff there are 1 to 8 URLs; none and more than 8 are refused, each with its fault |
| Abi.LookupRoundTrip | internal/plugins/wave1/ccip.go:80-117 | the standard encoding of an EIP-3668 OffchainLookup decodes to its fields iff it has 1 to 8 URLs |
| Abi.StringArgIsStandard | internal/plugins/wave1/plugin.go:566-569 | the argument text is the standard encoding of the string argument |
| Abi.ResultRoundTrip | internal/plugins/wave1/plugin.go:571-586 | a standard answer is read back iff its length fits in 31 bits |
| Abi.ResultsRoundTrip | internal/plugins/wave1/plugin.go:571-603 | as text, and as hexadecimal or nothing for the empty value |
| Detectors.CompactAndAppend | internal/security/analyzer.go:312-320 | the compaction into values[:0] keeps exactly the times after the cutoff, in the same array, and appends the new time |
| Detectors.WindowStore.TrackWindowCount | internal/security/analyzer.go:304-322 | the record of the key becomes the window, other keys keep theirs, and the verdict is the count against the threshold; nothing is tracked without threshold or window |
| Detectors.RecordIsWindow | internal/security/analyzer.go:304-322 | over any run with a nondecreasing clock each record is the window of the full history of its key |
| Detectors.VerdictIsHistorical | internal/security/analyzer.go:304-322 | so a verdict counts the full history in the window |
| Detectors.WindowIsSuffix | internal/security/analyzer.go:304-322 | which is a suffix of the history |
| DetectorRuns.RateCountsCalls | internal/security/analyzer.go:304-322 | the count compared with the threshold is the number of calls for the key strictly inside the window, the present one included |
| Detectors.SubdomainStore.Purge | internal/security/analyzer.go:285-289 | deleting old names in any iteration order leaves the same map |
| Detectors.SubdomainStore.TrackRandomSubdomain | internal/security/analyzer.go:265-295 | one query purges its map, records its subdomain under its client and base, and compares the size with the threshold; short names are not tracked |
| Detectors.SubdomainVerdictIsHistorical | internal/security/analyzer.go:265-295 | over any run with a nondecreasing clock the map size is the number of distinct subdomains of the full history strictly inside the window |
| Detectors.KeysCollideIff | internal/security/analyzer.go:278-278 | two keys are equal iff client and base are, or one client is the other with a bar and more text, and its base is what is left behind that text |
| Detectors.BarCollides | internal/security/analyzer.go:278-278 | every bar inside a client, not at its front, does let some other key collide |
| Detectors.DistinctCounts | internal/security/analyzer.go:265-295 | the count for a client and a base takes in exactly their own queries and those with colliding keys |
| Detectors.DistinctPerClient | internal/security/analyzer.go:265-295 | without bars in the clients it is the count of their own |
| DetectorRuns.CallContinuesRun | internal/security/analyzer.go:265-295 | whatever TrackRandomSubdomain does in its contract continues the run of raw queries so far and gives its verdict |
| DetectorRuns.EveryNameIsNamed | internal/security/analyzer.go:276-277 | every query name is the joining of dotless labels, with or without final dot |
| DetectorRuns.PartsOfNamed | internal/security/analyzer.go:276-281 | such a name is cut into its last two labels and the labels in front of them; with fewer than three it is not tracked |
| DetectorRuns.VerdictCountsFronts | internal/security/analyzer.go:265-295 | over any run of raw queries with a nondecreasing clock the verdict is true iff the name has three labels and the distinct label lists in front of the last two, asked for under the same key strictly inside the window, reach the threshold |
| DetectorRuns.VerdictPerClient | internal/security/analyzer.go:265-295 | without bars in the clients these are the lists asked for by the same client under the same last two labels |
| Routes.SortedFalls | internal/plugins/router.go:32-34 | sorting permutes the routes into falling priority |
| Routes.FirstOfSortedIsBest | internal/plugins/router.go:32-34 | the first eligible route of the sorted list is the eligible one of highest priority, and of these the one configured first |
| Routes.RoutingIsDetermined | internal/plugins/router.go:179-194 | two requests get the same route from every table iff they agree in the normalised name, in client view and tenant with default for a blank one, and in the set of normalised tags |
| Routes.KeyDeterminesRoute | internal/plugins/router.go:179-224 | separable requests with equal cache keys get the same route |
| Routes.KeyConfusesIff | internal/plugins/router.go:211-224 | in general a shared key is wrong for some table iff the requests differ in one of these four things |
| Routes.KeyIffSameQuestion | internal/plugins/router.go:211-224 | separable requests share a cache key iff they agree in normalised name and type, tenant, client view and tags with their multiplicity, so that the plugin would be asked the same question |
| Routes.CommaInTagConfusesRoutes | internal/plugins/router.go:211-224 | one tag with a comma and two tags share a key, and a table is given that serves one of the requests and not the other |
| NameLaws.SuffixMatchesIff | internal/plugins/types.go:91-100 | a name matches a configured suffix iff its label list ends with the labels of the suffix |
| NameLaws.ServedIff | internal/plugins/router.go:179-209 | a route serves a request iff the label list is that of one of its domains or ends with one of its suffixes, its client views and tenants are empty or hold the given value, default for a blank one, and the set of its tags is within the set of the given tags |
| RouteCache.CacheIsLatestCall | internal/plugins/router.go:96-171 | over any sequential run the cache answers exactly the latest successful call of the same plugin for the same key since the last flush, for TTL seconds and never for a TTL that is not positive |
| RouteCache.CacheIsLatestAnswer | internal/plugins/router.go:96-171 | over any sequential run of separable requests, what the cache answers to a request is the latest successful answer of that plugin to the same question since the last flush, while it is fresh |
| RouteCache.Registry.Match | internal/plugins/router.go:179-194 | the loop finds the configured eligible route of highest priority, of equals the first; a missing plugin is not passed over |
| RouteCache.Registry.Resolve | internal/plugins/router.go:96-120 | no route, a disabled plugin (never from the cache), or the cache before the plugin; the registry always holds exactly what its requests and flushes so far make of an empty cache |
| RouteCache.Registry.Consult | internal/plugins/router.go:107-119 | a hit gets metadata of its own and leaves the stored entry alone; a failing plugin stores nothing; a new answer is returned as it is and stored |
| RouteCache.Registry.HitIsLatestCall | internal/plugins/router.go:154-177 | so what a registry answers from its cache is the latest successful answer of that plugin to a request with the same normalised name and type, tenant, client view and tags since the last flush, while it is fresh |
| RouteCache.CloneMap | internal/plugins/router.go:226-235 | a fresh map with the same entries |
| Soa.FieldsOfJoined | internal/powerdns/client.go:782-782 | splitting words joined by blanks gives the words |
| Soa.ContentRoundTrip | internal/powerdns/client.go:781-841 | parsing the text of a valid record returns it up to its TTL |
| Soa.ContentIsNormal | internal/powerdns/client.go:843-908 | normalising that text again changes nothing |
| Soa.ContentIsSafe | internal/powerdns/client.go:953-964 | that text passes the content check |
| Soa.ZoneSoa | internal/powerdns/client.go:758-779 | the record loop finds the first active apex SOA record |
| Soa.UpdateAuthoritativeSoa | internal/powerdns/client.go:355-420 | read, change and write: the server changes iff a record is returned, and only in that zone |
| Soa.UpdateReadsBack | internal/powerdns/client.go:355-420 | an update succeeds iff its record is valid, and then reading the zone gives exactly the returned record, with a larger serial |
| Soa.UpdateSetsFields | internal/powerdns/client.go:355-420 | after an update the zone has the wanted server, mailbox, timers, TTL and serial, each where one is given and the old value where not, the serial raised if none is given; the update is refused iff no such record has a larger serial and sufficient timers |
| Soa.SerialsRise | internal/powerdns/client.go:355-420 | over any run of updates the returned serials rise strictly from the stored one and the zone holds the last returned record, so that they never wrap and never become zero |
| Soa.LargestSerialIsFinal | internal/powerdns/client.go:380-391 | at the largest serial every update is refused |

## Left out

- Certificate job errors are a data type; their texts and `sanitizedError` are not modelled.
- The list form of the stored jobs and its order by creation time: the image is a map.
- `SetIssuer`, `List`, `RevokedCertificatePEMs` and the X.509 and ACME issuers.
- Printing of addresses, hexadecimal and base64 data and quoting in resource records: `FormatRData` keeps the octets, and the names of types are not printed.
- Labels with octets of 128 and more are read as characters below 256, not as UTF-8.
- Sockets, timeouts, the retry over TCP and random query identifiers.
- The field tests of the log filter: a filter is any predicate on events.  Summaries and top lists.
- Two drains at once: the code does not exclude them, and the statements about drains assume one.
- The rewriting of the queue file is one atomic step; a crash inside it, and every I/O error of log and queue, is not modelled.
- Client counters, status reports, signatures and the timing of the replay worker.
- Gateway requests of CCIP-Read, the checks of gateway addresses, and all REST, JSON-RPC and GraphQL adapters.
- Entropy, digit ratio, domain patterns and private addresses in the analyzer, and the overflow of durations.
- Requests that run concurrently in the registry, and callers that change the metadata of an answer the cache still holds after a miss.
- Enumeration of plugins, cache statistics and the default route tables.
- Zone creation, record types other than SOA, DNSSEC keys, HTTP errors and two updates of one zone at the same time.
- HTTP handlers, configuration, the admin interface and the command-line tools.
- CertificateTheorems.RevokedIsFinal: speaks of revocations that reached the disk, because others can be forgotten by a crash (RevocationSurvivesIffWritten says when).
- RetryQueue.RunIsBounded: adds one attempt for each drain that a restart cuts off, because such a drain leaves no trace in the file (RetryBounds.BoundIsExact).
- Routes.KeyDeterminesRoute: assumes separable requests, because keys are joined without escaping (KeyConfusesIff is exact).
- Detectors.DistinctPerClient: assumes clients without a bar, because keys are joined without escaping (DistinctCounts is exact).
- DnsAnswers.AnswerRoundTrip: speaks of packets whose pointers lead to the question and whose counts are right; other pointers are the subject of DnsReader.PointerRoundTrip, other counts of NoErrorTilesPacket.
