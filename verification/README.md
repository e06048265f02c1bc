# Verified model of the Switchboard On-Demand Rust client

This project models, in Dafny, the parts of the Switchboard On-Demand Rust client in which a mistake would be hard to
see, and proves what they promise: the JSON codec of oracle jobs, the packing of secp256k1 signatures, address lookup
tables and the cache of them, the assembly of feed updates with its quorum, variance and checksum arithmetic, and
on-chain decimals.

`dafny verify dfyconfig.toml` checks everything.

## The modules

| file | what it models |
|---|---|
| `Wrappers.dfy`, `Bytes.dfy`, `FixedPoint.dfy`, `Doubles.dfy` | option and result types, little-endian integers, powers of ten and truncating division, binary64 rounding |
| `Descriptor.dfy`, `JobTable.dfy`, `JobTableValid.dfy` | what the generated codec knows about each job message: keys in two spellings, slots, oneofs, enums |
| `JobCodec.dfy` | the generated printer and parser, as functions and as the loops that count and push fields and fill slots |
| `JobRoundTrip.dfy`, `JobDocuments.dfy`, `JobAcceptance.dfy`, `JobMeaning.dfy`, `JobFailures.dfy`, `JobCanonical.dfy`, `JobOrder.dfy`, `JobSpelling.dfy`, `JobMessages.dfy` | the theorems about the codec |
| `Secp256k1.dfy` | the instruction data of the secp256k1 precompile, written by the client and read by its layout |
| `LookupTable.dfy`, `LookupTableUse.dfy` | the account data of a lookup table; its status, extension and lookups |
| `LutOwner.dfy`, `LutCache.dfy`, `LutInterleaving.dfy` | loading tables in batches, caching them, and fetches that interleave |
| `Checksum.dfy`, `Quorum.dfy`, `Variance.dfy` | the signed preimage, the number of signatures, the variance sent to oracles |
| `FeedUpdate.dfy`, `ConsensusUpdate.dfy` | the instructions of single-feed and consensus updates |
| `Decimal.dfy` | rescaling and comparing on-chain decimals |

The job codec is 12,000 generated lines in which every message follows the same few patterns, so it is modelled once, over
a *descriptor* that lists the arms of each message. The theorems hold for every descriptor whose keys, enum names and
enum numbers are unambiguous; `JobDescriptorValid` shows that the table of all 74 job messages is one. Records are trees
with one slot for each field or oneof, and JSON objects are sequences of entries, so that duplicate keys and entry order are
part of the model.

## What turned out different from what one would expect

- A NaN or infinite number in a job is printed as null and lost (`RoundTrip`, `NaNIsLost`).
- The order of entries in a job document matters when a null shares its field or oneof with a value, and only then
  (`OrderMattersExactly`, `NullAfterValueRejected`).
- The signature packer accepts up to 682 signatures but writes their count modulo 256, so the precompile sees all of
  them only up to 255 (`UnpacksCounted`, `Unpacks`, `CountWraps`).
- Keys are zipped with a list of tables from which failures have been dropped, so a key that fails before one that
  loads is cached with another key's table (`StaysRightExactly`, `RunsStayRightExactly`, `ZipMisplaces`).
- A lookup panics instead of failing when a table claims to have been extended past its end (`LookupPanics`,
  `LookupPanicsOn`).
- The checksum determines what was signed when there is one value a feed; without that tie other counts of feeds and
  values can hash the same bytes (`OneValuePerFeedInjective`, `TwinExactly`, `AmbiguousExactly`,
  `FourFeedsElevenValues`).
- Feeds with the same jobs share a hash, by which medians are matched, so in one consensus update both of their values
  go to the account of the first (`MatchesOwnFeedExactly`, `ValuesAligned`, `SharedHashMisplaces`).
- Asking for one signature less than the client does would still survive the loss of a quarter (`QuarterLostExactly`).
- A maximum variance of 2^32 billions or more reaches the oracles modulo 2^32 billions (`SentExactly`, `SentAsZero`).
- Rescaling by more than 38 digits panics, while two smaller steps may succeed (`DownTwice`, `UpTwice`).
- The accounts of a consensus update follow the key in an oracle's first feed response, not the key its answer names
  itself (`OwnKeysExactly`).
- Decimals that compare equal need not be `==`, since equality is derived from the fields (`EqualNotIdentical`,
  `OneAndOnePointZero`).

## Model

| member | source | states |
|---|---|---|
| `Descriptor.ResolveSpelling` | solana/rust/switchboard-on-demand-client/src/oracle_job.serde.rs:3937-3949 | a key leads to a field if and only if it is one of the two spellings of that field |
| `Descriptor.VariantInverse` | solana/rust/switchboard-on-demand-client/src/oracle_job.serde.rs:1647-1720 | enum names and enum numbers determine each other, in both directions |
| `JobCodec.Serialize` | solana/rust/switchboard-on-demand-client/src/oracle_job.serde.rs:1376-1457 | the generated printer, nested messages included, computes the document that the round-trip theorems speak of |
| `JobCodec.SerializeStruct` | solana/rust/switchboard-on-demand-client/src/oracle_job.serde.rs:9-22 | the number of fields declared up front is exactly the number of fields written |
| `JobCodec.Deserialize` | solana/rust/switchboard-on-demand-client/src/oracle_job.serde.rs:26-111 | the generated parser computes, for every document, the tree or error that the theorems speak of |
| `JobCodec.VisitMap` | solana/rust/switchboard-on-demand-client/src/oracle_job.serde.rs:203-240 | the loop that fills the slots is the entries read one after another from empty slots, with its errors |
| `JobTableValid.JobDescriptorValid` | solana/rust/switchboard-on-demand-client/src/oracle_job.serde.rs:10061-10124 | in all 74 messages and 20 enums no key names two fields, no list shares its slot, every field has a slot, and no enum repeats a name or number |
| `JobRoundTrip.PrintSucceeds` | solana/rust/switchboard-on-demand-client/src/oracle_job.serde.rs:1412-1416 | printing fails with "Invalid variant" exactly when some enum field, at any depth, holds an undefined number |
| `JobFailures.PrintFailsExactly` | solana/rust/switchboard-on-demand-client/src/oracle_job.serde.rs:1412-1416 | the number in the error is the first undefined one in the order of writing, at any depth |
| `JobRoundTrip.RoundTrip` | solana/rust/switchboard-on-demand-client/src/oracle_job.serde.rs:2-111 | parsing a printed message gives the message without its NaN and infinite fields; so it gives the message itself if and only if all enum numbers are defined and all doubles finite |
| `JobDocuments.ParsedTyped` | solana/rust/switchboard-on-demand-client/src/oracle_job.serde.rs:1458-1646 | whatever the parser accepts is a well-typed tree whose enum fields hold defined numbers |
| `JobDocuments.Normalises` | solana/rust/switchboard-on-demand-client/src/oracle_job.serde.rs:1376-1720 | every accepted document prints without error and, but for NaN and infinities, parses again to the same tree |
| `JobCanonical.PrintsCanonicalExactly` | solana/rust/switchboard-on-demand-client/src/oracle_job.serde.rs:1376-1457 | what is printed has camelCase keys in field order, one for each slot that holds something, enum names, and neither nulls nor empty lists, if and only if all doubles are finite |
| `JobCanonical.CanonicalExactly` | solana/rust/switchboard-on-demand-client/src/oracle_job.serde.rs:1376-1720 | printing what was parsed gives back the same document if and only if the document has that form |
| `JobAcceptance.VisitMeaning` | solana/rust/switchboard-on-demand-client/src/oracle_job.serde.rs:203-240 | the loop succeeds exactly when every entry reads and only nulls precede another entry of the same slot; each slot ends as its one non-null entry says |
| `JobAcceptance.AcceptedExactly` | solana/rust/switchboard-on-demand-client/src/oracle_job.serde.rs:10138-10577 | for one message, said of its entries without its loop: which objects are accepted, and what each slot of the tree then holds |
| `JobAcceptance.OneMemberPerSlot` | solana/rust/switchboard-on-demand-client/src/oracle_job.serde.rs:3963-4049 | two non-null entries for one oneof of an accepted object are the same entry, and its slot holds exactly that member |
| `JobMeaning.AcceptsExactly` | solana/rust/switchboard-on-demand-client/src/oracle_job.serde.rs:10138-10577 | for whole documents, by recursion on the document and without any loop: the parser accepts exactly the acceptable ones, at every level, with integers in the range of their type |
| `JobMeaning.OneMemberEverywhere` | solana/rust/switchboard-on-demand-client/src/oracle_job.serde.rs:3963-4049 | in an accepted document every oneof, at every level, has at most one non-null member |
| `JobMeaning.MeansExactly` | solana/rust/switchboard-on-demand-client/src/oracle_job.serde.rs:2-111 | a tree is the result of a document if and only if the document is acceptable and the tree holds, at every level, exactly the members it gives and defaults elsewhere: texts as they stand, the numbers that the document or its text denotes, the variants that it names |
| `JobFailures.FailsExactly` | solana/rust/switchboard-on-demand-client/src/oracle_job.serde.rs:177-240 | the parser fails with an error if and only if it is about the first thing wrong with the document: an unknown key, a slot already given a value, or a value that does not fit, at any depth |
| `JobOrder.ReorderAgrees` | solana/rust/switchboard-on-demand-client/src/oracle_job.serde.rs:10138-10577 | if no null shares a slot with a value, reordering the entries of any objects at any level changes neither acceptance nor result |
| `JobOrder.OrderMattersExactly` | solana/rust/switchboard-on-demand-client/src/oracle_job.serde.rs:203-240 | an accepted document keeps its meaning under every reordering if and only if no null shares a slot with a non-null value |
| `JobOrder.NullFreeOrder` | solana/rust/switchboard-on-demand-client/src/oracle_job.serde.rs:3963-4049 | reordering a document without nulls gives the same tree, or is rejected with it |
| `JobSpelling.RespellingUnseen` | solana/rust/switchboard-on-demand-client/src/oracle_job.serde.rs:1682-1716 | respelling keys between camelCase and snake_case, or enum values between name and number, anywhere in the tree leaves result and error unchanged |
| `JobMessages.JobsRoundTrip` | solana/rust/switchboard-on-demand-client/src/oracle_job.serde.rs:2-111 | an oracle job, with any of its task kinds, survives print and parse at any depth if and only if its enum numbers are defined and its doubles finite |
| `JobMessages.JobDocumentsExactly` | solana/rust/switchboard-on-demand-client/src/oracle_job.serde.rs:26-111 | every accepted job document prints, and parses again to its tree without NaN and infinities; it prints as itself exactly when canonical, and its order is free exactly when no null shares a slot with a value |
| `JobMessages.JobDocumentsMean` | solana/rust/switchboard-on-demand-client/src/oracle_job.serde.rs:26-111 | for job documents: acceptance and result said without the parser, and at most one non-null member for each oneof at every level |
| `JobMessages.JobsFailExactly` | solana/rust/switchboard-on-demand-client/src/oracle_job.serde.rs:177-240 | for job documents and jobs: with which error parsing and printing fail |
| `JobMessages.JobSpellingUnseen` | solana/rust/switchboard-on-demand-client/src/oracle_job.serde.rs:10061-10124 | respelling keys and enum values anywhere in a job document does not change its outcome |
| `JobMessages.JobKeysResolve` | solana/rust/switchboard-on-demand-client/src/oracle_job.serde.rs:10061-10124 | in every job message a key leads to a field if and only if it is one of its two spellings |
| `JobMessages.NaNIsLost` | solana/rust/switchboard-on-demand-client/src/oracle_job.serde.rs:112-139 | an input where the round trip fails: adding NaN comes back as adding nothing |
| `JobMessages.NullAfterValueRejected` | solana/rust/switchboard-on-demand-client/src/oracle_job.serde.rs:203-240 | an input where order matters: null then value is accepted, value then null is a duplicate |
| `Secp256k1.Pack` | solana/rust/switchboard-on-demand-client/src/secp256k1.rs:48-130 | succeeds exactly on a non-empty list with one message, 1 + 96n and the message size at most 65535, says which error otherwise, and produces exactly the layout |
| `Secp256k1.Regions` | solana/rust/switchboard-on-demand-client/src/secp256k1.rs:117-129 | count byte, offset rows, blocks and message tile the 1 + 96n + m bytes without gap or overlap |
| `Secp256k1.UnpacksEach` | solana/rust/switchboard-on-demand-client/src/secp256k1.rs:80-115 | following row i finds the ith signature, recovery id, address and the shared message, all three index bytes being the given one |
| `Secp256k1.UnpacksCounted` | solana/rust/switchboard-on-demand-client/src/secp256k1.rs:117-119 | a reader recovers, in order, as many signatures as the count modulo 256 |
| `Secp256k1.Unpacks` | solana/rust/switchboard-on-demand-client/src/secp256k1.rs:48-130 | it recovers the whole list if and only if there are at most 255 |
| `Secp256k1.CountWraps` | solana/rust/switchboard-on-demand-client/src/secp256k1.rs:117-119 | an input that packs and reads back as no signature at all |
| `LookupTable.OverwriteMetaData` | solana/rust/switchboard-on-demand-client/src/lut.rs:144-155 | rewrites exactly the first 56 bytes, or nothing when there are fewer |
| `LookupTable.SerializeForTests` | solana/rust/switchboard-on-demand-client/src/lut.rs:201-208 | produces the metadata region followed by the addresses |
| `LookupTable.RegionSlots` | solana/rust/switchboard-on-demand-client/src/lut.rs:48-58 | the state tag, both slots and the start index stand at their fixed offsets in the account |
| `LookupTable.RegionAuthority` | solana/rust/switchboard-on-demand-client/src/lut.rs:59-65 | where authority and padding stand, with and without authority, and that what is left of the 56 bytes is zero |
| `LookupTable.ReadsRegion` | solana/rust/switchboard-on-demand-client/src/lut.rs:212-236 | a buffer that begins with a metadata region parses to that metadata and the rest as keys, or fails when the rest is no whole number of keys |
| `LookupTable.ParsesExactly` | solana/rust/switchboard-on-demand-client/src/lut.rs:212-236 | which buffers parse and to what, byte range by byte range: tag 1, option tag 0 or 1, whole keys; of the others exactly those with tag 0 are uninitialized accounts |
| `LookupTable.TableRoundTrip` | solana/rust/switchboard-on-demand-client/src/lut.rs:201-236 | every table, with or without authority, comes back from its 56 + 32n bytes |
| `LookupTable.OverwriteKeepsAddresses` | solana/rust/switchboard-on-demand-client/src/lut.rs:144-155 | overwriting the metadata of any valid buffer changes the parsed metadata and no address |
| `LookupTable.RewritesExactly` | solana/rust/switchboard-on-demand-client/src/lut.rs:142-155 | a parsed buffer is written back byte for byte if and only if the bytes its metadata leaves unused are zero |
| `LookupTableUse.ActiveExactly` | solana/rust/switchboard-on-demand-client/src/lut.rs:87-120 | a table is active if and only if it was never deactivated, or was in the current slot or in a slot of the window |
| `LookupTableUse.StatusExactly` | solana/rust/switchboard-on-demand-client/src/lut.rs:88-120 | 513 blocks remain in the slot of deactivation, and 512 less its place in the window afterwards |
| `LookupTableUse.CountsDown` | solana/rust/switchboard-on-demand-client/src/lut.rs:88-120 | over every run of blocks a table deactivated in a produced block counts 513, 512, ..., 1, is active for exactly those 513 blocks, and deactivated ever after |
| `LookupTableUse.LookupExactly` | solana/rust/switchboard-on-demand-client/src/lut.rs:159-198 | for a table whose start index lies within it, a lookup succeeds exactly when the table is usable and every index is below the number of addresses and, up to the slot of the last extension, below the start index; it returns those addresses, says which error otherwise, and never panics |
| `LookupTableUse.LookupPanics` | solana/rust/switchboard-on-demand-client/src/lut.rs:173-192 | for any other table, exactly when a lookup panics |
| `LookupTableUse.LookupPanicsOn` | solana/rust/switchboard-on-demand-client/src/lut.rs:173-192 | account data that parses and on which a lookup of nothing panics |
| `LookupTableUse.ExtendsAll` | solana/rust/switchboard-on-demand-client/src/lut.rs:52-58 | any extensions keep the old addresses in place, the start index within the table, and never shrink the active prefix of a later slot |
| `LookupTableUse.ExtendingAppends` | solana/rust/switchboard-on-demand-client/src/lut.rs:52-58 | extensions append all their addresses in order, record the last slot, and touch neither deactivation slot nor authority |
| `LookupTableUse.VisibleAfter` | solana/rust/switchboard-on-demand-client/src/lut.rs:170-177 | after extensions in earlier slots and in the current one, an address is visible if and only if it was there before the current slot |
| `LookupTableUse.SameSlotUnchanged` | solana/rust/switchboard-on-demand-client/src/lut.rs:170-177 | any number of extensions in the slot of a lookup leave its answer unchanged |
| `LookupTableUse.LaterSame` | solana/rust/switchboard-on-demand-client/src/lut.rs:182-198 | a lookup that once succeeded returns the same addresses in every later slot in which the table is active, whatever was appended and whether or not it was deactivated in between |
| `LookupTableUse.LookupWhileCoolingDown` | solana/rust/switchboard-on-demand-client/src/lut.rs:104-120 | a lookup in a table deactivated after it keeps its answer for the 512 blocks that follow the deactivation, and is refused from then on |
| `LutOwner.CollectTableKeys` | solana/rust/switchboard-on-demand-client/src/lut_owner.rs:74-85 | the first loop keeps, in order, the table addresses of the owners that parse, each derived from its own key and slot |
| `LutOwner.ParseTables` | solana/rust/switchboard-on-demand-client/src/lut_owner.rs:92-100 | the second loop pairs each parsed table with the address it was fetched from |
| `LutOwner.LoadLookupTables` | solana/rust/switchboard-on-demand-client/src/lut_owner.rs:64-102 | despite its two independent skips the batch is what loading each key alone gives, without the failures |
| `LutOwner.TwoSkips` | solana/rust/switchboard-on-demand-client/src/lut_owner.rs:74-100 | skipping owners, then tables, leaves exactly the keys for which the one-key loader succeeds, with its results |
| `LutOwner.LoadedInOrder` | solana/rust/switchboard-on-demand-client/src/lut_owner.rs:64-102 | the batch is the in-order subsequence of exactly the keys that own a table: each is at the address derived from the signer of its own key and the slot in its own account, with the addresses that its account parses to |
| `LutOwner.LoadsExactly` | solana/rust/switchboard-on-demand-client/src/lut_owner.rs:31-55 | the one-key loader gives a table if and only if the owner owns it in that sense, and otherwise the error of the first step that fails |
| `LutCache.SbContext.constructor` | solana/rust/switchboard-on-demand-client/src/pull_feed.rs:72-78 | the cache starts empty |
| `LutCache.SbContext.FetchAndCacheLuts` | solana/rust/switchboard-on-demand-client/src/pull_feed.rs:81-106 | returns hits in order, then what loads of the misses in order; stores by zipping; changes nothing when the node does not answer |
| `LutCache.SbContext.StoreAndPush` | solana/rust/switchboard-on-demand-client/src/pull_feed.rs:99-102 | the zip loop stores and returns as many tables as the shorter list has |
| `LutCache.Stored` | solana/rust/switchboard-on-demand-client/src/pull_feed.rs:99-102 | each zipped key ends with the table of its last place |
| `LutCache.NotStored` | solana/rust/switchboard-on-demand-client/src/pull_feed.rs:99-102 | no other key is touched |
| `LutCache.StaysRightExactly` | solana/rust/switchboard-on-demand-client/src/pull_feed.rs:98-102 | after a fetch a right cache is still right if and only if, among the missed keys, no failing key precedes one that loads |
| `LutCache.HitsAndLoaded` | solana/rust/switchboard-on-demand-client/src/pull_feed.rs:86-105 | from a right cache, what is found and what is loaded for the missed keys together rearrange a direct load of all keys |
| `LutCache.ZipMisplaces` | solana/rust/switchboard-on-demand-client/src/pull_feed.rs:98-102 | two keys for which it goes wrong, and what the cache then answers |
| `LutInterleaving.RunsStayRight` | solana/rust/switchboard-on-demand-client/src/pull_feed.rs:342-346 | in every interleaving of any number of fetches, if in each request the failing keys come last among those the cache misses at the start, every cached key maps to what a direct load gives, at every moment |
| `LutInterleaving.RunsStayRightExactly` | solana/rust/switchboard-on-demand-client/src/pull_feed.rs:89-103 | all runs from a right cache stay right if and only if each request meets that condition |
| `LutInterleaving.ReturnsAll` | solana/rust/switchboard-on-demand-client/src/pull_feed.rs:86-105 | a fetch that has returned gave the tables of the keys it found, then of the others: a permutation of loading them all directly |
| `LutInterleaving.AloneIsOneCall` | solana/rust/switchboard-on-demand-client/src/pull_feed.rs:81-106 | the steps of an uninterrupted fetch come to what the method does, whether or not the node answers |
| `Checksum.GenerateCombinedChecksum` | solana/rust/switchboard-on-demand-client/src/pull_feed.rs:42-64 | hashes exactly the preimage of its arguments |
| `Checksum.PreimageLayout` | solana/rust/switchboard-on-demand-client/src/pull_feed.rs:48-61 | where the queue, each feed, the slot hash and each value stand in the preimage |
| `Checksum.FeedLayout` | solana/rust/switchboard-on-demand-client/src/pull_feed.rs:51-55 | a feed is its hash, then its variance in 8 and its responses in 4 little-endian bytes |
| `Checksum.ValueLayout` | solana/rust/switchboard-on-demand-client/src/pull_feed.rs:59-61 | a value is two's complement in 16 little-endian bytes |
| `Checksum.ReadsPreimage` | solana/rust/switchboard-on-demand-client/src/pull_feed.rs:48-61 | for known counts the preimage determines queue, every feed's hash, variance and responses, slot hash and every signed value |
| `Checksum.PreimageOfRead` | solana/rust/switchboard-on-demand-client/src/pull_feed.rs:48-61 | every byte string of the right length is the preimage of what is read from it |
| `Checksum.OneValuePerFeedInjective` | solana/rust/switchboard-on-demand-client/src/pull_feed.rs:42-64 | with one value a feed, equal preimages come from equal inputs, whatever their counts |
| `Checksum.TwinExactly` | solana/rust/switchboard-on-demand-client/src/pull_feed.rs:42-64 | otherwise an input with other counts has the same preimage if and only if 44 bytes a feed and 16 a value add up alike |
| `Checksum.FourFeedsElevenValues` | solana/rust/switchboard-on-demand-client/src/pull_feed.rs:51-61 | four feeds without values hash the same bytes as some eleven values without feeds |
| `Checksum.AmbiguousExactly` | solana/rust/switchboard-on-demand-client/src/pull_feed.rs:42-64 | an input shares its preimage with another if and only if it holds at least four feeds or at least eleven values |
| `Quorum.ConsensusSignatures` | solana/rust/switchboard-on-demand-client/src/pull_feed.rs:383-400 | the loop ends with the maximum of the requested count, or 1, and every feed's lower bound |
| `Quorum.ThirdRoundsUp` | solana/rust/switchboard-on-demand-client/src/pull_feed.rs:396-397 | the rounded quotient by three has the ceiling of the exact one |
| `Quorum.RoutesAgree` | solana/rust/switchboard-on-demand-client/src/pull_feed.rs:268-273 | single-feed default and consensus lower bound are both the smallest integer at least 4n/3 |
| `Quorum.QuarterLost` | solana/rust/switchboard-on-demand-client/src/pull_feed.rs:396-400 | losing up to a quarter of the signatures leaves a feed its minimum sample size |
| `Quorum.QuarterLostExactly` | solana/rust/switchboard-on-demand-client/src/pull_feed.rs:268-273 | every loss of up to a quarter leaves the minimum sample size if and only if at least one less than that count is asked for |
| `Quorum.OrderIndependent` | solana/rust/switchboard-on-demand-client/src/pull_feed.rs:388-400 | the count is the same for every order of the feeds |
| `Variance.FeedRequests` | solana/rust/switchboard-on-demand-client/src/gateway.rs:240-248 | one request a configuration, in order: its jobs, its variance times 10^9 or 10^9, its least number of responses or 1, and the timestamp flag or false |
| `Variance.BillionsRepresentable` | solana/rust/switchboard-on-demand-client/src/gateway.rs:241 | any u32 count of billions is a binary64 number |
| `Variance.RequestedExactly` | solana/rust/switchboard-on-demand-client/src/gateway.rs:205 | under any rounding to nearest the u32-to-f64 product has no rounding error |
| `Variance.SentExactly` | solana/rust/switchboard-on-demand-client/src/pull_feed.rs:280 | the variance sent is the on-chain one rounded down to billions modulo 2^32 billions, and the rounded one itself if and only if that is below 2^32 billions |
| `Variance.SentAsZero` | solana/rust/switchboard-on-demand-client/src/gateway.rs:205 | a maximum variance of exactly 2^32 billions is sent as 0 |
| `FeedUpdate.ReadResponses` | solana/rust/switchboard-on-demand-client/src/pull_feed.rs:287-315 | maps all the responses, or panics, and counts the values that parse |
| `FeedUpdate.CountsValued` | solana/rust/switchboard-on-demand-client/src/pull_feed.rs:293-296 | the counter is the number of responses whose value parses |
| `FeedUpdate.ReadsEach` | solana/rust/switchboard-on-demand-client/src/pull_feed.rs:288-315 | the mapping succeeds exactly when each response is readable, and keeps every response in its place |
| `FeedUpdate.ReadsExactly` | solana/rust/switchboard-on-demand-client/src/pull_feed.rs:288-315 | when a response is read, and as what: oracle and 64-byte signature as decoded or zeros, value at scale 18, low byte of the recovery id, error text |
| `FeedUpdate.SubmitSignaturesIx` | solana/rust/switchboard-on-demand-client/src/pull_feed.rs:171-216 | submissions hold the rescaled values in the order of the responses; accounts are the named ones, then all oracles, then all statistics |
| `FeedUpdate.FetchUpdateIx` | solana/rust/switchboard-on-demand-client/src/pull_feed.rs:287-338 | panics exactly when some response names no 32-byte oracle or a value beyond 96 bits, fails exactly when all are readable and none has a value; otherwise every submission stands with the value and signature as decoded and the oracle and statistics accounts of its own response, the keys whose tables are loaded are those oracles, and the counter is the number of values |
| `FeedUpdate.SubmittedAligned` | solana/rust/switchboard-on-demand-client/src/pull_feed.rs:176-214 | paired by position, each submission carries its response's decoded value and signature and meets its own oracle, read-only, and that oracle's statistics account, writable |
| `FeedUpdate.AccountRoles` | solana/rust/switchboard-on-demand-client/src/instructions/pull_feed_submit_response_ix.rs:20-32 | in the whole instruction only the payer signs; only feed, payer, reward vault and the statistics are writable; the named accounts are in the program's order |
| `FeedUpdate.SentinelMarksFailures` | solana/rust/switchboard-on-demand-client/src/pull_feed.rs:178-182 | 2^127 - 1 is submitted for exactly the responses without a value |
| `ConsensusUpdate.HexInjective` | solana/rust/switchboard-on-demand-client/src/pull_feed.rs:509 | feed hashes with the same hexadecimal text are the same |
| `ConsensusUpdate.HexDigits` | solana/rust/switchboard-on-demand-client/src/pull_feed.rs:509 | a feed hash is written in lower-case hexadecimal, high digit first |
| `ConsensusUpdate.MatchesFirstLike` | solana/rust/switchboard-on-demand-client/src/pull_feed.rs:504-513 | a median is matched with the first feed of its hash, in whatever order medians come |
| `ConsensusUpdate.MatchesOwnFeedExactly` | solana/rust/switchboard-on-demand-client/src/pull_feed.rs:504-521 | every feed is matched with itself if and only if no two feeds with other keys share a hash |
| `ConsensusUpdate.MatchesNone` | solana/rust/switchboard-on-demand-client/src/pull_feed.rs:512-519 | a hash of no feed is matched with the all-zero key |
| `ConsensusUpdate.RemainingAccounts` | solana/rust/switchboard-on-demand-client/src/pull_feed.rs:524-531 | feeds first, then each oracle followed by its statistics account |
| `ConsensusUpdate.ConsensusIxs` | solana/rust/switchboard-on-demand-client/src/pull_feed.rs:454-566 | exactly when the assembly panics, in terms of what the answers decode to, and both instructions otherwise |
| `ConsensusUpdate.AssemblesExactly` | solana/rust/switchboard-on-demand-client/src/pull_feed.rs:467-502 | the assembly goes through if and only if there is an answer, each has a feed response, every key, address, signature and checksum decodes to its size, all checksums are the same, and the offsets fit 16 bits |
| `ConsensusUpdate.ConsensusRoles` | solana/rust/switchboard-on-demand-client/src/instructions/pull_feed_submit_response_consensus.rs:20-32 | in the whole instruction only the payer signs; only payer, reward vault, feeds and statistics are writable; the named accounts are in the program's order |
| `ConsensusUpdate.SignersAligned` | solana/rust/switchboard-on-demand-client/src/pull_feed.rs:479-531 | read back through the precompile's layout, up to 255 signatures, with address, message and recovery id as decoded, stand each with the accounts of the oracle that made it, all over one message and all found in instruction 0 |
| `ConsensusUpdate.OwnKeysExactly` | solana/rust/switchboard-on-demand-client/src/pull_feed.rs:467-478 | every signature stands with the accounts of the oracle its answer names itself if and only if every answer names the same oracle in its first feed response |
| `ConsensusUpdate.ValuesAligned` | solana/rust/switchboard-on-demand-client/src/pull_feed.rs:455-526 | every value is the number its text denotes or 2^127 - 1, and stands with the account of the feed it was computed for if and only if no median could be for two feeds with other keys; distinct feed hashes suffice |
| `ConsensusUpdate.SharedHashMisplaces` | solana/rust/switchboard-on-demand-client/src/pull_feed.rs:508-513 | two feeds with one hash: both values stand with the account of the first |
| `SwitchboardDecimals.ScalesExactly` | solana/rust/switchboard-on-demand/src/decimal.rs:83-95 | the rescaled mantissa is the exact product when digits are added and the quotient toward zero when they are dropped; each of the two panics exactly when stated |
| `SwitchboardDecimals.DownTwice` | solana/rust/switchboard-on-demand/src/decimal.rs:83-102 | scaling down in two steps equals one step, for either sign, if and only if the distance is at most 38 digits or a single step is more; in between two steps go where one panics |
| `SwitchboardDecimals.UpTwice` | solana/rust/switchboard-on-demand/src/decimal.rs:83-102 | scaling up in two steps equals one step, faults included, with the exact exceptions beyond 38 digits |
| `SwitchboardDecimals.UpThenDown` | solana/rust/switchboard-on-demand/src/decimal.rs:83-102 | going up first and then anywhere below equals the direct way, unless only the way back exceeds 38 digits; back to the start it is the identity |
| `SwitchboardDecimals.DownThenUp` | solana/rust/switchboard-on-demand/src/decimal.rs:83-102 | down and back up succeeds exactly up to 38 digits, and moves toward zero by less than one coarse unit, to a multiple of it |
| `SwitchboardDecimals.Monotone` | solana/rust/switchboard-on-demand/src/decimal.rs:83-95 | rescaling keeps the order of mantissas |
| `SwitchboardDecimals.ComparesCrossed` | solana/rust/switchboard-on-demand/src/decimal.rs:125-131 | comparison panics exactly on values beyond 96 bits or scale 28, and otherwise compares the cross products |
| `SwitchboardDecimals.OperatorsAgree` | solana/rust/switchboard-on-demand/src/decimal.rs:133-157 | the four operators and `cmp` say the same on all inputs |
| `SwitchboardDecimals.TotalPreorder` | solana/rust/switchboard-on-demand/src/decimal.rs:125-157 | on convertible values they are one total preorder |
| `SwitchboardDecimals.ComparesRescaled` | solana/rust/switchboard-on-demand/src/decimal.rs:83-131 | comparison agrees with comparing mantissas at the larger scale whenever that fits i128 |
| `SwitchboardDecimals.EqualNotIdentical` | solana/rust/switchboard-on-demand/src/decimal.rs:63-70 | exactly when two values compare equal without being `==` |
| `SwitchboardDecimals.OneAndOnePointZero` | solana/rust/switchboard-on-demand/src/decimal.rs:63-70 | 1 and 1.0 compare equal and are not `==` |

## Left out

- JobRoundTrip.RoundTrip: doubles are reals with NaN and the infinities added; rounding a long decimal text or a large integer to binary64 is not modelled.
- JobDocuments.Normalises: how the text of a number is read (`FromStr`) is a parameter; the theorem holds for any.
- JSON text itself, its recursion limit, and the wording of error messages.
- LookupTable.OverwriteMetaData: the `GenericError` of a failed encoding is not modelled, since the encoded state always fits its 56 bytes.
- LookupTableUse.CountsDown: the window is searched by position, which agrees with the library's binary search on the descending windows that blocks produce.
- LookupTableUse.LaterSame: extension follows the metadata comments and the clock, since the program that extends tables is not part of this model.
- LutOwner.LoadLookupTables: alignment of account bytes and the limit on accounts in one request are not modelled; account contents are a function of the key that does not change while fetches run.
- LutInterleaving.RunsStayRight: a key is always loaded as the same type of owner.
- Checksum.GenerateCombinedChecksum: SHA-256 is a parameter; the theorems are about its preimage.
- Variance.RequestedExactly: the exponent range of binary64 is unbounded in the model; all numbers here are far inside it.
- FeedUpdate.FetchUpdateIx: the decimal library rescales by a function that is a parameter, of which only this is assumed: it leaves alone a decimal of scale 18, which is all this route builds.
- FeedUpdate.SubmittedAligned: the pairing by position is that of the account order the client writes; the program on chain is not part of this model.
- SwitchboardDecimals.ScaleTo: a power of ten beyond 10^38 panics in builds with overflow checks, and only those are modelled.
- SwitchboardDecimals.ComparesCrossed: the 96-bit decimal library is specified by its range and by the number a value denotes.
- Borsh encoding of instruction parameters, program addresses, base58, base64 and derivations of program addresses: parameters or not modelled.
- Requests, retries, `OnceCell` caches of feeds and jobs, and the failure of loading them.
- The queue of a consensus update, which is that of the last feed in the list.
- Conversion of a decimal to a boolean and from `f64`, which are calls into the decimal library.
