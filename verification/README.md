# natlog: a verified model of the collector's core

natlog receives NetFlow and IPFIX, writes the flows to ClickHouse through a write-ahead spool, archives old days
to S3, answers searches over both, and sanitizes captures. This project models the parts of it that are hard to
get right and proves what they promise, in Dafny 4.11. `dafny verify dfyconfig.toml` checks all of it.

- **Write-ahead log** (`SpoolDisk`, `Wal`, `WalProof`, `WalTheorems`, `Company`, `Flush`, `Replay`, `SpoolStats`,
  `SpoolNames`, `Envelope`): a state machine whose steps are single file-system calls and database replies of any
  number of writer shards and of the replay loop, with process death, power loss and restart between any two of them.
  `Flush` and `Replay` are the shard's and the loop's own code, run as one actor among the others.
- **Writer queue** (`Queue`): a shard's queue with any number of producers in all three backpressure modes.
- **Decoders** (`Wire`, `Decode`, `Records`, `Elements`, `Parsing`, `Decoder`, `DecoderTheorems`, `RoundTrip`):
  NetFlow v9 and IPFIX as one model with a dialect, as functions and as the in-place code proved equal to them.
- **Sanitizer** (`Sanitize`, `Commute`, `SanitizeTheorems`, `SanitizeBytes`, `Keeping`, `Buffers`, `Rewriting`,
  `Sanitizer`, `Frames`, `FrameBytes`, `Captures`): rewriting buffers in place, proved against functions that are then
  shown to commute with decoding, payload by payload and over whole captures, and to leave exactly known bytes unread.
- **Captures and load generator** (`Pcap`, `Links`, `PcapFile`, `Formats`, `Benchgen`, `BenchgenPackets`,
  `BenchgenBuild`).
- **Director** (`Archive`, `Rollup`, `ColdSearch`, `Paging`, `Search`, `Audit`, `LruCache`, `Monitor`, `Crm`).
- `Prelude` holds the few names that many modules share.

## Model

| member | source | states |
|---|---|---|
| `WalTheorems.NeverLost` | internal/writer/spool/spool.go:70-336 | At every instant of every run in which New counts every number it finds, each batch whose Begin returned a handle is acknowledged row by row, or on the disk complete under exactly one of its active, ready and quarantined names, now and after a power loss |
| `WalTheorems.StatsSuffice` | internal/writer/spool/spool.go:133-148 | New counts every number it finds if every os.Stat of a listed file succeeds |
| `WalTheorems.UncountedLoses` | internal/writer/spool/spool.go:138-141 | Conversely, from any running state with an unacknowledged released batch numbered above the counter, some continuation without any further fault, in which batches come and are stored, loses that batch |
| `WalTheorems.IgnoredStatLosesBatch` | internal/writer/spool/spool.go:138-141 | A run from the empty directory that loses a batch after one ignored os.Stat failure |
| `WalTheorems.NeverLostIff` | internal/writer/spool/spool.go:70-154 | All reachable states are free of losses exactly if New may leave no number uncounted |
| `WalTheorems.HandlesFresh` | internal/writer/spool/spool.go:115-148 | The next number is above every number in the directory, and no number is ever listed twice, so the errors "both active and ready copies" and "quarantine target already exists" cannot occur |
| `WalTheorems.ReusedOnlyWhenAcked` | internal/writer/spool/spool.go:172-183 | A number, and its deduplication token, is given out again only after every row of each earlier batch under it was acknowledged |
| `WalTheorems.HandleReuse` | internal/writer/spool/spool.go:355-362 | A run without faults in which one number, and so one token, is given to two batches |
| `Company.ForeignCalm` | internal/writer/clickhouse/clickhouse.go:635-793 | Whatever step another shard or the replay loop takes, an actor finds its own batch, file and place as they were |
| `Flush.Shard.Begin` | internal/writer/spool/spool.go:172-227 | A handle is returned only once the batch is whole and synced under its active name, with other actors at work between any two calls |
| `Flush.Shard.Flush` | internal/writer/clickhouse/clickhouse.go:635-793 | Every row ends inserted, rejected, dropped, or in the log or since acknowledged by replay, as the answers to the batch and to each row say, and without a spool the three counters move by exactly the batch; and if no call fails, a logged batch is right afterwards under its ready name exactly if a row failed transiently, under its quarantine name exactly if none did and one was refused, and gone if every row was stored |
| `Flush.Shard.FinishSalvage` | internal/writer/clickhouse/clickhouse.go:773-793 | After a row-by-row attempt a writer's file is ready if any row failed transiently, quarantined if none did and one was refused, and removed otherwise; replay's stays while its batch may be tried again |
| `Replay.Replayer.Tick` | internal/writer/clickhouse/clickhouse.go:268-353 | A tick terminates beside working shards and takes the smallest number first; it stops at a zero counter, which leaves released batches waiting exactly if New missed more files than are active and waiting, and none if New missed none; every other batch keeps its failure count, and an error needs a failed call or an unreadable file |
| `Replay.Replayer.Attempt` | internal/writer/clickhouse/clickhouse.go:304-350 | A batch is sent once and blocks the tick exactly if its answers do not settle it and this was not its tenth failure; if it leaves the queue its file is gone if all was stored, and quarantined otherwise |
| `Replay.Replayer.Run` | internal/writer/clickhouse/clickhouse.go:260-353 | Over any number of ticks a batch blocks fewer than ten, as long as no call on it fails |
| `Replay.SkippedStaysReady` | internal/writer/clickhouse/clickhouse.go:280-286 | A run in which New skips a file, the counter reaches zero and a released batch stays |
| `SpoolStats.CountersMatch` | internal/writer/spool/spool.go:339-343 | At every instant of every run in which New leaves no number uncounted, `files` is the number of active and ready files and `bytes` the size of these and the quarantined ones, short of exactly those New skipped, and apart from files being placed and those whose cleanup failed |
| `SpoolStats.NothingMissed` | internal/writer/spool/spool.go:133-148 | If every os.Stat of a listed file succeeds, New misses nothing, at any instant of any run |
| `SpoolStats.ZeroFiles` | internal/writer/spool/spool.go:339-343 | Released and waiting active files are together what the counter says and New missed, so at a zero counter nothing is released exactly if as many active files wait as were missed |
| `SpoolStats.CapOverrun` | internal/writer/spool/spool.go:172-227 | Over every run, `bytes` passes the cap, or what New found, by less than one batch for each shard |
| `SpoolNames.NamesSortAsNumbers` | internal/writer/spool/spool.go:266-283 | Sorting the zero-padded names as strings sorts the batches by number, in both directions |
| `SpoolNames.NameReadBack` | internal/writer/spool/spool.go:156-163 | seqOf reads back the number of every name that Begin forms, for all 64-bit numbers |
| `SpoolNames.NameShape` | internal/writer/spool/spool.go:172-183 | Every 64-bit number has a name of twenty characters and `.spool` |
| `Envelope.SealedIsSent` | internal/writer/spool/spool.go:449-498 | What encodeBatch wrote, eight bytes of header, payload and 32 bytes of checksum, is decoded and sent as it was |
| `Envelope.CutShort` | internal/writer/spool/spool.go:461-498 | A file cut short at any length fails, and so ends in quarantine, exactly if something is left of it in which the serializer does not meet the end of its input and which does not happen to sum to its own last bytes; cut to nothing it is removed |
| `Envelope.RemovedIff` | internal/writer/spool/spool.go:266-291 | Of all files, exactly those in which the serializer meets the end of its input, whatever their checksum, and those that open as a batch without rows are deleted without being sent |
| `Envelope.DamageDetected` | internal/writer/spool/spool.go:472-497 | A file of the same length and header that differs anywhere before its checksum fails, unless the hash collides; or it is deleted, exactly if the damage makes the serializer meet the end of its input |
| `Envelope.ZerosRemoved` | internal/writer/spool/spool.go:284-291 | A file of any number of zeros is deleted unread, with a serializer that takes a leading zero for an empty message |
| `Queue.Shard.Conserved` | internal/writer/clickhouse/clickhouse.go:520-633 | In every state of every schedule, offered records are queued, taken or counted as dropped |
| `Queue.Shard.Enqueue` | internal/writer/clickhouse/clickhouse.go:520-567 | In each backpressure mode the answer is what the queue at that moment calls for: a record is refused only when full or told to quit, the queue stays within its capacity, and the accepted records keep their order |
| `Queue.Shard.Run` | internal/writer/clickhouse/clickhouse.go:578-633 | The consumer stops only once told to, with batch and queue empty, and then has flushed exactly the accepted records without the evicted ones, in order |
| `Queue.SourceOrderKept` | internal/writer/clickhouse/clickhouse.go:871-891 | All records of an exporter and device reach one shard, in the order the pool got them |
| `Queue.KnownShard` | internal/writer/clickhouse/clickhouse.go:871-891 | The shard of a given exporter and device among seven, from the published FNV-1a constants |
| `RoundTrip.DatagramDecoded` | internal/decoder/ipfix/ipfix.go:124-325 | Decode undoes encode: a datagram with any header, template, options, reserved and padded data sets, with fixed, variable and enterprise fields, redefinitions and withdrawals, yields for the records written the flows of FlowOf, each by the template its number had there, in order, cut at 8192 |
| `RoundTrip.HeaderEncoded` | internal/decoder/ipfix/ipfix.go:124-140 | A header written field by field is accepted, and its domain and the time its clocks count from are those written |
| `RoundTrip.TakenIff` | internal/decoder/ipfix/ipfix.go:124-133 | A datagram is refused exactly if it is shorter than its header or does not start with its version |
| `Elements.RecordRead` | internal/decoder/netflow9/netflow9.go:255-318 | For every record the decoder's fold over the fields is FlowOf: each part of the flow, address, port, NAT, counter, time or user name, is the value of the last field with one of its element numbers, which are written out for both protocols, and where it has a fallback and none of these, of the first field with that |
| `Elements.BeUintIs` | internal/decoder/netflow9/netflow9.go:365-374 | A number is the sum of its last eight bytes by their places |
| `Elements.Int64Is` | internal/decoder/ipfix/ipfix.go:423-447 | Conversion to a signed integer gives the one 64-bit integer that agrees in its last 64 bits |
| `Elements.TrimFieldIs` | internal/decoder/netflow9/netflow9.go:391-402 | A text is what precedes the first NUL without the blanks around it |
| `Elements.TextUnique` | internal/decoder/netflow9/netflow9.go:391-402 | That determines the text |
| `RoundTrip.TemplatesParsed` | internal/decoder/ipfix/ipfix.go:172-228 | Template sets of any length, each field with its own enterprise number, are read back as written, whatever padding follows |
| `RoundTrip.ScopedsRead` | internal/decoder/ipfix/ipfix.go:230-248 | IPFIX options template sets are read back as written, and say that their numbers carry no flows |
| `RoundTrip.ScopedReadV9` | internal/decoder/netflow9/netflow9.go:202-224 | So is the one options template of a v9 set, with the length of its records |
| `RoundTrip.EmitsWritten` | internal/decoder/ipfix/ipfix.go:250-289 | A data set yields the first `limit` of the records written in it, and nothing for the padding behind them |
| `RoundTrip.WithdrawnSilent` | internal/decoder/ipfix/ipfix.go:206-222 | A template withdrawn last in a set is known no longer, and data sets of its number give nothing |
| `Records.WalkLaid` | internal/decoder/ipfix/ipfix.go:291-325 | A record with short and long variable-length values is read back value by value, whatever follows |
| `DecoderTheorems.RoundTripDespiteSweep` | internal/decoder/netflow9/netflow9.go:320-362 | The same whatever the cache held and evicts by its own rule, for a datagram that defines the templates it uses, as long as the templates seen at that instant and the datagram's fit the cap |
| `DecoderTheorems.DecodeWritten` | internal/decoder/ipfix/ipfix.go:124-170 | The same of the decoder in place, whose own evictions obey the rule |
| `Decoder.Decoder.Decode` | internal/decoder/ipfix/ipfix.go:124-170 | Decoding in place is the function DecodePacket on results, errors and cache alike, what was in `dst` stays a prefix, and each template removed on the way was expired or among the oldest of an over-full cache at its sweep |
| `Decoder.Decoder.PutTemplate` | internal/decoder/ipfix/ipfix.go:376-385 | After a put the cache holds at most 65536 templates; a sweep comes exactly when a minute has passed since the last or the cache is over-full, leaves none unused for more than half an hour, and takes others only oldest first and down to 65536 |
| `Decoder.Decoder.GetTemplate` | internal/decoder/ipfix/ipfix.go:393-401 | A template that is used counts as seen at that moment, and nothing else changes |
| `Decoder.Decoder.Sweep` | internal/decoder/ipfix/ipfix.go:403-421 | What a sweep removes satisfies the eviction rule |
| `Decoder.FreshSurvives` | internal/decoder/netflow9/netflow9.go:344-362 | A template stored just now survives its own sweep unless every other one is as recent |
| `DecoderTheorems.DatagramConfined` | internal/decoder/netflow9/netflow9.go:130-172 | For all bytes, a datagram yields at most 8192 flows, and another exporter's or domain's template stays as it was, or goes because it has expired, or because the cache was over-full and no other of theirs that stayed had been out of use for longer |
| `DecoderTheorems.DecodeIsolated` | internal/decoder/netflow9/netflow9.go:130-172 | The same of the decoder in place, exporter and domain, in terms of its own templates and their ages |
| `DecoderTheorems.DumpThenLoad` | internal/decoder/ipfix/ipfix.go:475-530 | A restarted decoder knows exactly the templates that were saved, all seen now |
| `DecoderTheorems.LoadTemplates` | internal/decoder/ipfix/ipfix.go:503-530 | Loading keeps the decoder valid, so that no record of a loaded template runs out of bounds |
| `Parsing.ParseFieldSpecs` | internal/decoder/ipfix/ipfix.go:172-204 | The loop reads the specifiers as ParseSpecs does, and the record length is the sum of the fixed lengths |
| `Parsing.EmitRecords` | internal/decoder/ipfix/ipfix.go:250-325 | The record loops append exactly the flows of Emit, within bounds for every body |
| `SanitizeTheorems.SanitizedDecodesMapped` | internal/sanitize/sanitize.go:148-407 | A kept payload decodes to the original's flows with each IPv4 address renamed, leaves the decoder the same templates, and sanitizer and decoder still agree afterwards below the record cap, also when the decoder knows the exporter by another name |
| `SanitizeTheorems.NoAddressLeaks` | internal/sanitize/sanitize.go:148-407 | No flow decoded from a kept payload has an address outside 10.0.0.0/8 |
| `SanitizeBytes.PayloadCut` | internal/sanitize/sanitize.go:181-407 | A kept payload is cut into the values of its fields by element number and the parts of the format: exactly the values of elements 8, 12, 15, 18, 225 and 226, four bytes each, are renamed and all other bytes stay; none is of element 27, 28, 62, 63, 281 or 282; and every byte was read if and only if the payload is tight: it has a header, ends where the header says, and each of its sets is read whole, which its bytes alone decide |
| `Keeping.PayloadKeptIff` | internal/sanitize/sanitize.go:181-325 | A payload is kept if and only if each of its data sets is, given what the sets before it teach |
| `Keeping.RecordsKeptIff` | internal/sanitize/sanitize.go:327-407 | A data set is kept if and only if its template is known and no options template, no record has one of the six IPv6 elements or one of the six IPv4 elements in other than four bytes, and only zeros follow the records, or nothing where no field has its own length |
| `Keeping.OptionsDropped` | internal/sanitize/sanitize.go:197-204 | Data sets under the number that an options template set opens with are dropped, and nothing else is learned from that set |
| `Keeping.FlowsKeptIff` | internal/sanitize/sanitize.go:148-178 | A UDP payload is kept if and only if it is a whole number of v5 records behind their header, or a v9 or IPFIX payload that is kept |
| `Keeping.FrameKeptIff` | internal/sanitize/sanitize.go:117-146 | A frame is kept if and only if an IPv4 packet is found in it and, if that is UDP, its payload is kept |
| `Sanitize.RenameKnown` | internal/sanitize/sanitize.go:86-101 | What a given address becomes under a given key |
| `Sanitize.FnvKnown` | internal/sanitize/sanitize.go:86-101 | The hash gives the published value for a published text |
| `Sanitizer.Sanitizer.SanitizeFlows` | internal/sanitize/sanitize.go:181-325 | Rewriting a v9 or IPFIX payload in place is the function SanitizePacket, templates included, and touches no byte outside the payload |
| `Sanitizer.Sanitizer.SanitizeV5` | internal/sanitize/sanitize.go:164-178 | A v5 payload is rewritten as ScrubV5 says, or refused and left as it was |
| `Sanitizer.Sanitizer.Frame` | internal/sanitize/sanitize.go:117-146 | A frame is kept with exactly the bytes of CleanBy or dropped, counted as one or the other, and the templates known afterwards are those of NotedFrame, also when it is dropped |
| `Frames.FrameCleaned` | internal/sanitize/sanitize.go:117-146 | A kept frame has both addresses renamed, a header checksum that verifies, the cleaned payload where it was, and every other byte unchanged |
| `FrameBytes.FrameCut` | internal/sanitize/sanitize.go:117-146 | Apart from its two checksums, a kept frame is the original with its two header addresses and the address fields of its flow records renamed; and no byte of it was kept unread if and only if it has no IP options, is a flow datagram or ends with its header, ends with the datagram, and the payload is tight |
| `FrameBytes.FrameNoted` | internal/sanitize/sanitize.go:181-325 | What the sanitizer remembers stays fit for that result, frame after frame |
| `FrameBytes.OptionKept` | internal/sanitize/sanitize.go:108-146 | A kept frame with any given address in its IP options |
| `FrameBytes.TailKept` | internal/sanitize/sanitize.go:240-283 | A kept payload with any given address behind the length in its IPFIX header |
| `FrameBytes.ElementKept` | internal/sanitize/sanitize.go:17-23 | A kept payload, read whole, with any given address in element 130, exporterIPv4Address, which is not on the list |
| `Captures.SanitizedCapture` | cmd/pcapsanitize/main.go:64-79 | Replaying a sanitized capture into any collector gives the kept frames' own results with each address renamed, and no address outside 10.0.0.0/8, as long as the senders stay distinct under their new names, up to and including the first frame that is dropped with a template in it or runs into the record limit |
| `Captures.SanitizeCapture` | cmd/pcapsanitize/main.go:64-79 | The command's loop over the sanitizer object writes exactly these frames, and its counters add up |
| `Captures.DroppedTemplateLeaks` | internal/sanitize/sanitize.go:181-216 | Three payloads, of which the second is dropped and redefines a template: the third is kept, and decodes to the address it had |
| `BenchgenPackets.StreamDecoded` | cmd/benchgen/main.go:260-451 | A collector that gets the generator's template and then any sequence of its template and data packets decodes exactly the generated flows of each, whatever it knew before, as long as it had room for one template and evicts by its rule |
| `BenchgenBuild.BuildTemplate` | cmd/benchgen/main.go:271-285 | Filling the template packet in place gives TemplatePacket |
| `BenchgenBuild.BuildData` | cmd/benchgen/main.go:287-326 | Filling the data packet in place gives DataPacket |
| `Pcap.ChecksumVerifies` | internal/pcapio/pcapio.go:267-279 | A header that stores IPv4Checksum at bytes 10 and 11 has one's-complement sum 0xFFFF (section 3.1 of RFC 791, section 1 of RFC 1071) |
| `Pcap.Ipv4Checksum` | internal/pcapio/pcapio.go:267-279 | The 32-bit loop computes the one's-complement checksum of every header up to 65536 bytes |
| `Pcap.ParseUdp` | internal/pcapio/pcapio.go:148-239 | For every frame and link type, the loop over VLAN tags computes the offset, and the offsets found lie within the frame |
| `Links.WrittenFound` | internal/pcapio/pcapio.go:148-239 | In front of a UDP packet any Ethernet header with any number of VLAN tags, cooked header of either version, loopback header or none, written out, is skipped: offsets, ports and payload are found as written |
| `Links.FoundWritten` | internal/pcapio/pcapio.go:148-239 | Conversely, every frame in which a UDP packet is found was written like this |
| `Links.Ipv4Found` | internal/pcapio/pcapio.go:197-211 | The same of any IPv4 packet, with options or without |
| `Links.FoundIpv4` | internal/pcapio/pcapio.go:197-211 | And its converse |
| `PcapFile.FrameParsed` | internal/pcapio/pcapio.go:214-265 | ParseUDP inverts EthernetIPv4UDP, and the built header verifies |
| `PcapFile.CaptureReadBack` | internal/pcapio/pcapio.go:44-133 | Any capture written is read back with its link type and packets, times cut to microseconds, to its end or exactly up to the first frame above 16 MiB |
| `Formats.FileRead` | internal/pcapio/pcapio.go:44-101 | A capture written in either byte order, with microseconds or nanoseconds, is read with its link type and packets, times exact, in order to its end |
| `PcapFile.WriteThenRead` | internal/pcapio/pcapio.go:71-133 | The same of the Writer and Reader objects |
| `Archive.World.Sweep` | internal/director/retention.go:170-264 | Beside any inserts, failures and manual requests, every row ever inserted is in hot storage or in S3, except rows that landed on a day after its check or marker, and rows that a manual request exposed, each with the reason why; each candidate has its turn, the days and rows reported are those archived, and nothing keeps a quiet sweep from dropping a marked day or archiving a new one |
| `Archive.World.ArchiveDay` | internal/director/retention.go:186-262 | A day dropped through the export path had every row of its check in S3 and its marker stored, and lost nothing exactly if no row landed after the check that is not in S3, and exactly if its objects hold as many rows as the partition did; a day dropped again loses nothing exactly if these counts are equal |
| `Archive.World.CompleteIff` | internal/director/retention.go:224-244 | All hot rows of a day are in S3 if and only if the row counts are equal |
| `Archive.World.ExportDay` | internal/archive/archive.go:62-132 | The reported number counts rows that an object then holds, also when an existing object is verified and reused |
| `Archive.World.Redrop` | internal/director/retention.go:187-194 | Dropping a marked day again loses nothing exactly if the counts are equal or the drop was refused |
| `Archive.ManualMarkLoses` | internal/director/retention.go:398-410 | A run in which a manual request marks a day whose rows are not all in S3, and the next sweep drops them |
| `Archive.LateRowLost` | internal/director/retention.go:231-257 | A sweep in which nothing fails loses a row that lands on the day between the completeness check and the drop |
| `Archive.MarkedRowLost` | internal/director/retention.go:187-194 | A run in which a row that lands on a marked day is dropped with it |
| `Rollup.Tables.Run` | internal/director/rollup.go:79-144 | Over any run of both jobs failing anywhere, watermarks strictly increase and the hourly table sums no row twice; nor does the subscriber table without late commits; without failures or late commits both sum every row up to the watermark exactly once |
| `Rollup.Tables.EnsureRollups` | internal/director/rollup.go:79-121 | The first backfill that succeeds stores a watermark ten seconds back; it sums rows twice exactly if it reaches the subscriber table while only that table had rows, and a failed first backfill leaves that state exactly if a row was committed between its two statements |
| `Rollup.StragglerTwice` | internal/director/rollup.go:79-121 | A run of the code in which the subscriber table sums a row twice |
| `ColdSearch.WalkColdDays` | internal/director/cold.go:235-265 | The rows are the first `limit` of all days' rows, newest day first, and `capped` says exactly whether the limit was reached |
| `Paging.WindowSame` | internal/director/cold.go:293-322 | Two tiers cut to the window and merged have, within the window, the times of the whole merged and sorted |
| `Search.OverlapsIff` | internal/director/cold.go:357-380 | A day is selected exactly if some moment of it lies in the search window |
| `Search.SearchAll` | internal/director/cold.go:267-322 | If the days read cover what hot storage does not hold, row k of a page within the window has the time of row `offset` + k of everything, hot rows and the rows of all overlapping archived days, each once and sorted, and a total that is not capped is exact; an error comes only from a refused search or a failed read, and a search over archived days with one open end is refused |
| `Search.ExportReport` | internal/director/search.go:259-272 | An exported report on a bounded window holds everything, each row once, if and only if each overlapping archived day was read and has no row in hot storage, or was not read and has all its rows there |
| `Search.SuccessCovers` | internal/director/cold.go:324-380 | With both reads of the archive state successful and at most 4000 archived days, that is the case if and only if each archived day that counts as hot has all its rows in hot storage |
| `Search.ListFailureOmits` | internal/director/cold.go:326-329 | A report exported without an archived row because the list of archived days could not be read |
| `Search.LateRowOmits` | internal/director/cold.go:343-361 | A report exported, every read successful, without the archived rows of a day on which a late row landed |
| `Search.CountFailureDoubles` | internal/director/cold.go:343-351 | With the day counts unreadable, a day that is archived and still hot is read twice |
| `Audit.SameEnd` | internal/director/store/mem.go:442-456 | With a collision-free hash, two accepted logs that end in the same hash are equally long and hash the same texts |
| `Audit.Log.LogQuery` | internal/director/store/mem.go:324-336 | Logging extends a chain to a chain |
| `Audit.Log.VerifyAuditChain` | internal/director/store/mem.go:442-456 | Verification accepts exactly the chains, and otherwise stops at the oldest broken link |
| `Audit.PinnedIff` | internal/director/store/store.go:89-93 | The hashed text determines the entry if and only if no field contains the separator |
| `Audit.SameEndSameFields` | internal/director/store/store.go:89-93 | A log without separators in its fields is determined entry by entry by its last hash |
| `Audit.MovedSeparators` | internal/director/store/store.go:89-93 | Two different ten-field entries that hash alike, their separators in the free-text protocol and case reference |
| `LruCache.Cache.Get` | internal/director/crm/cache.go:54-72 | Get returns what the last Put of the key stored, exactly unless that has expired or was evicted since |
| `LruCache.Cache.Put` | internal/director/crm/cache.go:74-100 | The key is stored with its lifetime, and at capacity exactly the least recently used other key goes |
| `LruCache.Cache.RemoveOldest` | internal/director/crm/cache.go:102-113 | The evicted key was used before every key that stays; map and list stay in step |
| `Monitor.DeviceMonitor.EvalTransitions` | internal/director/monitor.go:220-268 | A tick leaves exactly the enabled devices, each silent exactly if it was heard of and not lately, its last flow never going back, and mails exactly what is due |
| `Monitor.IngestMonitor.EvalTick` | internal/director/ingestmon.go:168-199 | A recovery or an alert is due exactly when the history of samples and mails says so, an alert reports the counters' difference since the last insertion, and five stalled ticks never pass without an alert outstanding |
| `Monitor.Episodes` | internal/director/ingestmon.go:168-199 | In any history of mails, alerts of one episode are at least the reminder interval apart and a recovery ends an episode that an alert began |
| `Monitor.SinceBase` | internal/director/ingestmon.go:168-199 | Since the last insertion or re-baseline nothing was inserted and the decoded count did not go back, over at least as many ticks as are counted stalled |
| `Crm.EnrichRows` | internal/director/crm.go:355-506 | No evidence changes, every row gets the status, person and reference that its own lookup and the answer to it call for, each counter is the number of rows with its statuses, and the four add up to all rows; the outcome is unavailable exactly if a lookup was pending and every row fails, and complete exactly if none does |
| `Crm.AllFailedPartial` | internal/director/crm.go:428-434 | A run in which every row fails and the outcome is partial |
| `Crm.AllAnswered` | internal/director/crm.go:437-484 | The batches make up the pending lookups, and if all come through, neither batch size nor order matters to the answers |
| `Crm.Cache.Put` | internal/director/crm.go:266-292 | The cache holds at most 50000 answers, matches for fifteen minutes and others for two, keeps everything below the cap, and at it drops all expired answers, and live ones only until a tenth is free |

## Findings

Properties that the code or its documentation promises and that turned out false. Each has a concrete run or input
in the project, and the exact condition under which it holds; the last one has only a sufficient condition.

- New skips a listed batch file whose os.Stat fails (spool.go:138-141). Its number stays uncounted and is handed out
  again; the second batch then removes the first one's file (`IgnoredStatLosesBatch`). Safe exactly as long as no
  number in the directory is above the counter when New returns (`NeverLost`, `UncountedLoses`).
- The package says that a handle is stable; numbers and deduplication tokens are reused after a restart once nothing
  on the disk remembers them (`HandleReuse`), though only after every earlier row was acknowledged
  (`ReusedOnlyWhenAcked`).
- A spool file in which gob meets the end of its input is taken for an empty batch, because Oldest accepts io.EOF
  (spool.go:287), and is deleted instead of quarantined, before its checksum is looked at. An empty file is one
  (`CutShort`), and a file of zeros another (`ZerosRemoved`); `RemovedIff` states exactly which are.
- A tick stops when the file counter is zero (clickhouse.go:280-286). If New skipped a file whose os.Stat failed, that
  leaves a released batch waiting, until a shard begins another one (`SkippedStaysReady`); `Tick` and `ZeroFiles` state
  exactly when.
- The manual archive request marks a day after a clean export without counting the partition (retention.go:398-410),
  and a marked day is dropped without a count (187-194): rows of tenants it did not know, or that landed after it
  counted their tenant, are lost (`ManualMarkLoses`). A repeated drop loses nothing exactly if the counts are equal
  (`CompleteIff`, `Redrop`).
- A row that lands on a day between its completeness check and its drop is lost (`LateRowLost`); `ArchiveDay` states
  exactly when an archived day lost nothing.
- A backfill that fails to store its watermark is repeated and can sum a row into the subscriber table twice
  (`StragglerTwice`); `EnsureRollups` states exactly when.
- Reports do not always fail closed. When the list of archived days cannot be read, the report is exported from hot
  storage alone (`ListFailureOmits`); when the day counts cannot be read, days in hot storage are read twice
  (`CountFailureDoubles`); and with every read successful, a day that was archived and dropped counts as hot again once
  a late row lands on it, and its archived rows are left out (`LateRowOmits`). Beyond 4000 archived days the oldest are
  not listed. `ExportReport` states exactly when an exported report is complete, and `SuccessCovers` what that comes to
  when every read succeeds.
- The audit text joins fields by a separator that the free-text fields may contain (`MovedSeparators`); `PinnedIff`
  states exactly when a text determines its entry.
- The capture writer accepts frames that its reader refuses (`CaptureReadBack`).
- An enrichment in which every row fails without any lookup pending is called partial, not unavailable
  (`AllFailedPartial`); `EnrichRows` states exactly when each outcome is given.
- "Every kept frame has all IPv4 addresses rewritten" (sanitize.go:108-116): frames are kept with addresses in IP
  options (`OptionKept`), in the payload of packets that are not UDP, behind the length in an IPFIX header (`TailKept`)
  and in sets or trailing bytes that nothing reads. No byte is kept unread exactly if the frame is plain, which can be
  seen from the frame alone (`FrameCut`, `PayloadCut`). Address elements outside the list of sanitize.go:17-23 are
  read and kept as well (`ElementKept`).
- "No real address can leak through an undecodable record": the sanitizer keeps the templates of a packet it drops, and
  a collector that never sees that packet reads later kept ones by the old template (`DroppedTemplateLeaks`). Nothing
  leaks as long as no dropped frame defines a template and no kept one runs into the record limit (`SanitizedCapture`).
  The converse depends on where the two templates place their addresses, and is not stated.

## Assumptions

- A rename is atomic, and un-synced changes to the names of one sequence number survive a power loss only as a prefix
  of the order in which they were made (`SpoolDisk`); different numbers are independent. `NeverLost` and
  `HandlesFresh` rest on this.
- A file that was synced keeps its bytes, a removal and the counter it updates are one step, and Done's own os.Stat
  succeeds when its removal does.
- SHA-256 and the gob serializer are functions: the serializer inverts itself whatever follows, reports the end of its
  input on an empty one and perhaps on others, and reads a first byte below 128 as the length of what follows.
- The list of archived days is the one of the MySQL store: the newest 4000.
- One clock reading is used for all templates of a datagram, and an exporter is known by its address bytes.
- Time in the rollup model does not go back; rows of an unmarked day are only added, never removed or expired; a row's
  day is fixed. The unchecked count at rollup.go:106 does not fail.
- Rows that S3 returns for a day lie within that day, and rows of equal time may come in any order.
- A decoded time is never exactly Go's zero time, 1 January of the year 1, which would count as unset.
- bytes.TrimSpace is modelled for ASCII white space; differences of times do not saturate.
- A lookup's reference code is a function of its cache key.

## Left out

- NetFlow v5 and syslog decoding, the device registry, NAT classification, compliance grading and skip rules: they
  would only add easy members.
- SQL texts, URLs, S3 and HTTP protocols, mail delivery, sessions and roles: what they do is decided by systems that
  cannot be seen from here. Their calls are steps that succeed, fail, or succeed without saying so.
- Reloading the writer pool while records arrive: it depends on wall-clock timing.
- The database-down and broken-parts alerts and the daily summary: one flag each.
- `Captures.SanitizedCapture`: compares with the kept frames of the original, not with all of them, because what a
  dropped frame would have brought is gone by design.
- `SpoolStats.CountersMatch`: says nothing about runs in which New leaves a number uncounted or the os.Stat in Done
  fails, because the counters then drift from the directory.
- `Replay.Replayer.Run`: counts ticks that a batch blocks only while no call on it fails, because a failed quarantine
  move leaves the batch in place for good.
- `Crm.EnrichRows`: does not say which answers are put into the cache; what a row gets does not depend on it.
- `Monitor.IngestMonitor.EvalTick`: decides what is due, not whether it is delivered: a mail that cannot be sent is
  not retried before the reminder interval.
