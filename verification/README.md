# A verified model of the sharded, replicated vector index

This project models the parts of the `vsearch` package that have to be right for data not to
be lost and for answers not to be wrong, and proves what they promise:

- **the durable, replicated log**: the bytes of the write-ahead log, the shard that logs,
  snapshots and recovers, the replicas of a shard under one writing coordinator with crashes,
  lost replies, lost disks, catch-up and repair, and the coordinator's own methods;
- **the HNSW graph**: insertion, the greedy walk, the plain and the filtered beam search,
  neighbour selection, and the snapshot that flattens it all and puts it together again;
- **answering a query**: the payload index, the choice between exact and graph search, the
  merge of the shards' answers, and failing over between replicas;
- **cutting documents** into passages of limited size.

The specification of a shard is one line: its state is the fold of `apply` over the writes it
has accepted (`Histories.Fold`). Everything about the log is proved against that, in layers:

1. `Bytes`, `Framing`, `LogFormat`: the log file. Reading any bytes gives exactly the records that
   check out, up to the first place where none does, and a log cut anywhere gives exactly those
   wholly before the cut.
2. `Disk`, `DurableShard`: what each disk step can leave behind, and the class whose methods
   take those steps. A shard reopened after any life holds every completed write exactly once.
3. `ReplicaGroup`, `Cluster`: a state machine over all shards, all replicas and successive
   coordinators, with an invariant kept by every step. `Guarantees`, `Durability`, `Lockstep`:
   what follows for every run. `LostDiskExample`: the run that shows what does not.
4. `World`: the same cluster as it is, bytes on disks and fields in memory, where a crash may
   stop any disk operation anywhere, the coordinator sees only replies, and a ledger notes each
   write that its whole shard acknowledged and the disks it was acknowledged from.
   `Refinement`, `WorldRuns`: every run of it is a run of layer 3, ledger and all, so what holds
   there holds of the disks.
5. `CatchUp`, `Repair`, `Coordinator`: the methods that drive the shards, in the code's own
   shape, proved against the layers below. `LawfulWorld`: what one call of the coordinator does
   to a world of layer 4, which is what its methods run in.
6. `ShardEngine`: the fold is the real one. What `add_batch` does to a shard, graph and random
   generator included, is a function of its state and the batch, so equal histories give equal
   shards, and a shard restored from a snapshot stays equal to its twin. `Promise`: what `add`
   promises, from its return to the vectors that a replica's disk comes up with.

The search side is `Graphs`, `BeamSearch`, `Neighbours`, `Hnsw`, `Snapshot`, `Filtering`,
`Merging`, `Query`, `Failover`; the documents are `Lines`,
`Markup`, `Passages`, `Chunking` and `Layout`.

## What is taken as given

- One coordinator writes at a time; a new one starts by knowing nothing, and a long-lived one
  calls `refresh` if another has written since (`vsearch/client.py:162-165`).
- A call to a replica is one step under its lock. An `Add` call is applied and acknowledged,
  applied with its reply lost, or never applied; it is never applied after the coordinator has
  moved on (`vsearch/client.py:139-148` waits for every call).
- fsync is on, and a rename is atomic. A crash during an append leaves any number of its bytes.
- CRC32 is a parameter: any function from bytes to a `u32`. What is proved holds whatever it is.
- `json.loads`, the regular expressions, the distance, the normalization, the random level and
  what counts as white space are parameters too. A split into sentences takes only white space,
  and what ends a line is white space.
- Distances are compared as reals: no rounding, no NaN. `M` is at least 1.

## A promise the code does not keep

"Any log records left over are older than the new snapshot" (`vsearch/storage.py:311-313`) and
"by the time this reply goes out the write can no longer be lost" (`vsearch/server.py:39-40`)
both fail in one case. `catch_up` asks for the source's log, is refused, and then asks for its
snapshot; if the source loses its disk in between and comes back empty, the snapshot it sends
covers fewer writes than the follower already holds, and `install_snapshot` does not look.

- `LostDiskExample.AcknowledgedWriteVanishes` is such a run, step by step: an acknowledged
  write disappears from a replica that never lost its disk.
- `Durability.InstallKeepsIff` is the exact condition, which a caller could test before
  installing: `SnapshotChunk.last_seq` is at least the follower's `last_seq`.
  `Durability.AcknowledgedWritesStay` proves the promise for every run whose installs meet it,
  and `Durability.NoLossWhileFetching` that every run does in which no source loses its disk
  between refusing its log and sending its snapshot. `WorldRuns.AcknowledgedWritesAreOnDisk`
  proves it of the bytes on the disks and the world's own ledger, and
  `Promises.AddedRowsAreRead` of every row that `add` was given.
- `Disks.InstallMayWedgeIff` is the exact condition for the first sentence. A crash after the
  rename can leave a disk that cannot be opened ("log jumps") if and only if the log, as it
  is before the call, jumps past the snapshot: it has a record after the snapshot's next one,
  and not the one before that. `Disks.JumpsPastTail`: a log of the writes after number m does
  so exactly if the snapshot ends before m and the log is not empty. What matters is the first
  record of the log, not the follower's own snapshot: a checkpoint that crashed may have left
  older records, which fill the gap. `Disks.LifeRecovers`: over any life of a shard, whatever
  is installed and wherever crashes fall, that is the only way to such a disk.

## Model

| member | source | states |
|---|---|---|
| Framing.ReadRecords | vsearch/storage.py:157-189 | the loop over the file returns the longest run of intact records from the start and the byte length they take, for arbitrary bytes |
| Framing.ScanIsExact | vsearch/storage.py:157-189 | for any bytes: each record read is a whole frame whose length, checksum and body check out, they stand one after the other from the start, and where they stop no frame checks out |
| Framing.HeadRoundTrip | vsearch/storage.py:206-217 | what `append` writes is read back as that record, whatever follows it in the file |
| Framing.TruncateIsStable | vsearch/storage.py:195-204 | for any bytes: cutting the file to the reported length and reading again gives the same records and the same length |
| Framing.AppendAfterTruncate | vsearch/storage.py:195-217 | for any bytes: after that cut, one append adds exactly that one record |
| Framing.CutAnywhere | vsearch/storage.py:157-189 | a file cut anywhere within its intact part reads as a prefix of the records it read as before, those wholly before the cut |
| Framing.CutInTornTail | vsearch/storage.py:157-189 | a cut beyond the intact part changes nothing |
| Framing.CutLogReadsWholeRecords | vsearch/storage.py:157-217 | a log of whole records, cut anywhere, reads as exactly the records wholly before the cut, with their byte length |
| LogFormat.ParsePayloads | vsearch/storage.py:140-154 | the payload loop returns count texts and uses up the body, or fails: never a partial list |
| LogFormat.ReadRecordBody | vsearch/storage.py:171-187 | a body's fields are those its bytes say, or the body is refused |
| LogFormat.PayloadSectionRoundTrip | vsearch/storage.py:140-154 | payloads written are payloads read; a batch with no payload at all writes none and reads back blank ones |
| LogFormat.BodyRoundTrip | vsearch/storage.py:206-217 | encoding then decoding a record body gives the same seq, ids, vectors and payloads |
| LogFormat.DecodeIff | vsearch/storage.py:140-187 | for any bytes: they are read as a record if and only if they are that record written down, every byte of it, blank payloads listed or left out |
| LogFormat.RecordLayout | vsearch/storage.py:8-16 | where each field of a record is in the file: body length, checksum of all that follows, seq, count, dim, then ids, floats and payloads |
| LogFormat.IdAt | vsearch/storage.py:8-16 | id i is the eight bytes from 8i on, in two's complement |
| LogFormat.ValueAt | vsearch/storage.py:8-16 | float i is the four bytes from 4i on |
| LogFormat.PayloadAt | vsearch/storage.py:8-16 | payload i stands after all before it, its length first |
| Bytes.LowByteFirst | vsearch/storage.py:8-16 | four-byte numbers have their low byte first |
| Bytes.LowHalfFirst | vsearch/storage.py:8-16 | and those of eight their low half |
| LogFormat.LogCodecIsFaithful | vsearch/storage.py:8-16 | the log's record format meets what the framing lemmas ask of a format, for every CRC function |
| LogFormat.LogCutAnywhere | vsearch/storage.py:157-217 | for every list of writes and every cut of the encoded log: exactly the writes wholly before the cut are read |
| Disks.ReopenFolds | vsearch/storage.py:237-265 | opening a disk that holds a history gives its fold, its last seq and its snapshot seq; the "log jumps" branch is not taken |
| Disks.HeldStateIsUnique | vsearch/storage.py:237-265 | a disk stands for one state only |
| Disks.AppendCrash | vsearch/storage.py:206-217 | any number of an append's bytes on disk holds the old history; all of them, the new one |
| Disks.RenamedHolds | vsearch/storage.py:48-56 | between the rename and the emptying of the log, old records are skipped: the disk holds the snapshot's history |
| Disks.CutStaleLog | vsearch/storage.py:219-223 | emptying a log that the snapshot covers may stop at any byte |
| Disks.ReplaceCrash | vsearch/storage.py:282-287 | every image of a checkpoint, or of an install that is not older, holds the old history before the rename and the new one from it on |
| Disks.ReplacedHolds | vsearch/storage.py:303-318 | any snapshot over any disk, stopped anywhere from the rename on: the disk fails to open if and only if what is left of the log jumps past the snapshot; otherwise it keeps the snapshot's writes and those of the newer records left |
| Disks.AddCrash | vsearch/storage.py:267-280 | every image of `add_batch`, with its automatic checkpoint, holds the write once or not at all, and all earlier ones once |
| Disks.OpenCrash | vsearch/storage.py:195-204 | a crash while the torn tail is cut off changes nothing |
| Disks.EventHolds | vsearch/storage.py:237-318 | one operation, an opening included, completed or stopped between any two disk steps: unless an install wedges the disk, it opens, and holds the outcome, what was there before, or for an older install something in between |
| Disks.LifeRecovers | vsearch/storage.py:237-318 | any life of openings, writes, checkpoints, installs of any snapshot, and crashes: the disk fails to open if and only if some install wedged it; otherwise it opens as the fold of a history with every completed write exactly once and every interrupted one at most once |
| Disks.InstallMayWedgeIff | vsearch/storage.py:303-318 | some crash of an install leaves a disk that cannot be opened if and only if the log jumps past the snapshot; never if the snapshot has all the shard's writes |
| Disks.JumpsPastTail | vsearch/storage.py:256-264 | a log of the writes after number m jumps past a snapshot exactly if that ends before m and the log is not empty |
| DurableShards.ReplayLog | vsearch/storage.py:256-264 | the replay loop skips records the snapshot holds, refuses a gap, and applies the rest in order |
| DurableShards.DurableShard.Open | vsearch/storage.py:237-265 | opening fails exactly if the log jumps, with the two numbers; otherwise the shard's fields are those of the history its disk keeps, and no crash while the tail is cut loses any of it |
| DurableShards.DurableShard.AddBatch | vsearch/storage.py:267-280 | a number that is not the next one is refused, with the next one, and changes nothing; otherwise the history grows by the batch; everything is snapshotted and the log emptied if snapshot_every is not 0 and at least that many vectors have been written since the last snapshot, and otherwise the snapshot stays and these vectors are counted; every crash image holds the old or the new history |
| DurableShards.DurableShard.Checkpoint | vsearch/storage.py:282-287 | a new snapshot of everything and an empty log; the history is the same on every crash image |
| DurableShards.DurableShard.RecordsAfter | vsearch/storage.py:289-295 | None exactly if the snapshot has swallowed a record asked for, otherwise all records after that number and no others |
| DurableShards.DurableShard.SnapshotBytes | vsearch/storage.py:297-301 | the snapshot is the fold of the first snapshot_seq writes; one is taken if there is none |
| DurableShards.DurableShard.InstallSnapshot | vsearch/storage.py:303-318 | the shard becomes the one that accepted the snapshot's history; if that extends its own, no crash on the way loses a write; if not, a crash from the rename on leaves a disk that opens exactly if what is left of its log does not jump, with the snapshot's writes and the newer records left |
| CatchUps.ApplyRecords | vsearch/server.py:127-132 | the records of one reply, up to where the stream breaks, extend the follower along the peer's history; none is refused as out of order |
| CatchUps.FetchLog | vsearch/server.py:77-88 | one FetchLog, with the peer writing and snapshotting before it: the follower stays a prefix of the peer, and equals it if the stream was whole |
| CatchUps.FetchSnapshot | vsearch/server.py:90-96 | one FetchSnapshot and install after a refusal: the follower's last seq never goes down |
| CatchUps.CatchUp | vsearch/server.py:115-141 | the follower only grows, is a prefix of the peer throughout, equals it on success, loses nothing at any crash; the method reported is by log if and only if no snapshot was installed, and the records counted are those after the last one; it gives up only if the peer was busy before every later attempt, so two attempts do with a quiet peer |
| Repairs.FindSource | vsearch/client.py:202-212 | the source is the first of the most advanced replicas that answer |
| Repairs.SyncFrom | vsearch/client.py:213-217 | one SyncFrom changes only the follower and the source; with calls that do not break and a quiet source it succeeds |
| Repairs.RepairShard | vsearch/client.py:191-222 | no copy loses a write, unreachable ones are left alone; when it finishes, every replica that answered equals the most advanced of them, and exactly those that were behind are reported as synced, in order, each with the method it used and the records it applied |
| ReplicaGroups.MoveSound | vsearch/server.py:77-141 | crashes, restarts, lost disks, checkpoints and every step of a sync, torn installs and disks that no longer open among them, keep the copies of a shard comparable |
| ReplicaGroups.StartSyncSound | vsearch/server.py:98-107 | so does the start of a sync |
| ReplicaGroups.AskSound | vsearch/client.py:177-180 | a Status reply bounds what that replica will hold until the next write |
| ReplicaGroups.ConcludeSound | vsearch/client.py:185-189 | if all replicas reported one seq, none holds more than that |
| ReplicaGroups.BeginWriteSound | vsearch/client.py:130-137 | sending a chunk with the next number to all replicas keeps the invariant |
| ReplicaGroups.DeliverSound | vsearch/storage.py:267-280 | a replica accepting the chunk keeps it, reply lost or not |
| ReplicaGroups.EndWriteSound | vsearch/client.py:139-159 | after all replies: position moved on if all acknowledged, forgotten if not |
| ReplicaGroups.AckedAlike | vsearch/client.py:154-156 | any two replicas that acknowledged a chunk had the same history then |
| Clusters.StepSafe | vsearch/client.py:97-189 | every step of the cluster keeps the whole invariant: histories comparable, numbers bounded by what the coordinator knows, ids fresh and disjoint |
| Clusters.RunSafe | vsearch/client.py:97-189 | so it holds in every state of every run |
| Guarantees.HistoriesAgree | vsearch/client.py:130-137 | in every run, of any two replicas' histories one is a prefix of the other: a number names the same write everywhere |
| Guarantees.IdsAreUnique | vsearch/client.py:167-189 | across successive coordinators, failed and partial writes: ids strictly increase with local id, and no id is stored twice |
| Guarantees.SizesNeverDiverge | vsearch/client.py:154-156 | the "replicas diverged" error cannot occur |
| Durability.InstallKeepsIff | vsearch/storage.py:303-318 | an install keeps what the follower had if and only if the snapshot has at least as many writes |
| Durability.AcknowledgedWritesStay | vsearch/client.py:130-160 | in every run whose installs meet that: a write acknowledged by all replicas stays, under its number, on every replica that keeps the disk it had |
| Durability.SuccessIsRecorded | vsearch/client.py:139-160 | a chunk no call failed for enters the ledger, as the next write, with all replicas of its shard |
| Durability.NoLossWhileFetching | vsearch/server.py:115-141 | a run in which no source loses its disk between refusing its log and sending its snapshot has only such installs, and none of its disks becomes impossible to open |
| LostDiskExample.AcknowledgedWriteVanishes | vsearch/storage.py:303-318 | a run in which an acknowledged write vanishes from a replica that kept its disk |
| Lockstep.LastSeqsWithinOne | vsearch/client.py:139-153 | as long as no disk is lost, every disk can be opened, the last seqs of a shard's replicas differ by at most one, and are equal to the coordinator's while it knows the position |
| Refinements.AddRefines | vsearch/storage.py:267-280 | `add_batch` with its snapshot, on a running host, stopped anywhere: its disk and fields are those of the replica with the write and perhaps a snapshot, or without |
| Refinements.CheckpointShows | vsearch/storage.py:282-287 | a checkpoint, completed or stopped, is `Checkpoint`, perhaps followed by a crash, or a crash |
| Refinements.OpenShows | vsearch/storage.py:237-265 | opening, completed or stopped, is `Restart` or nothing, and nothing for a disk that cannot be opened |
| Refinements.LogReplyShows | vsearch/storage.py:289-295 | whether the log reaches back, and with which records, is decided by the disk as it is by the replica it shows |
| Refinements.FetchSnapshotShows | vsearch/storage.py:297-301 | FetchSnapshot is a checkpoint of the source if it has none, which may crash it, and then `FetchSnapshot` of the snapshot on its disk |
| Refinements.InstallShows | vsearch/storage.py:303-318 | an install of any snapshot, completed or stopped anywhere, is `Install`, a crash, or for an older one `Torn` or `Wedge`; with all the replica has, none but `Install` |
| Refinements.DoingShows | vsearch/server.py:77-141 | whatever a host does on its own its group of replicas does in a few moves |
| WorldRuns.DecisionBlursOn | vsearch/client.py:97-189 | what the coordinator decides, and what it sees next, depends on the replies it got and on nothing else of the replicas |
| WorldRuns.HappeningShows | vsearch/server.py:32-141 | whatever happens in the world, writes arriving, replies, crashes in the middle of an operation, syncs, decisions of the coordinator, is a few steps of the cluster that the world shows; what replicas do on their own changes no view and no ledger |
| WorldRuns.WorldsAreRuns | vsearch/storage.py:237-318 | every run over disks, memories and one coordinator is a run of the cluster, with the same acknowledged writes in the same order in both ledgers, and one whose installs go forward is such a run there |
| WorldRuns.OpenDisksAgree | vsearch/storage.py:237-265 | in every run: two disks of a shard that open at all open as folds of histories one of which begins the other, as equal shards if their last seqs are equal |
| WorldRuns.DisksOpen | vsearch/storage.py:256-264 | in every run that has cost a shard no disk: its disks all open, "log jumps" is never reported, and their last seqs differ by at most one |
| WorldRuns.LedgerShows | vsearch/client.py:139-159 | a round that succeeds puts the same writes, with the same numbers and disks, in the world's ledger and in the cluster's; no other decision touches either |
| WorldRuns.AcknowledgedWritesAreOnDisk | vsearch/server.py:38-51 | in every run of the world in which no host installs fewer writes than it has: every disk opens, and every write in the world's ledger is read back, under its number and after one and the same history, from every disk it was acknowledged from that is not lost |
| Routing.RouteRoundRobin | vsearch/cluster.py:114-129 | every row, with its own id and payload, goes to exactly one shard, id modulo shards, in order |
| Routing.RouteToShard | vsearch/cluster.py:101-106 | the same to one given shard |
| Routing.RequestsKeepIds | vsearch/client.py:122-137 | a share cut into requests has each of its ids once, in order, at most per_request at a time |
| Routing.RequestsKeepPayloads | vsearch/client.py:122-137 | and each payload, with its id |
| Routing.RequestsKeepValues | vsearch/client.py:122-137 | and each vector |
| Routing.RequestsIncrease | vsearch/client.py:122-137 | ids grow within a request and from request to request |
| Routing.NextRequest | vsearch/client.py:122-129 | the slices the loop takes are the requests, one after the other |
| Routing.RequestFits | vsearch/client.py:106-108 | the purpose of per_request: a request of more than one row stays within MAX_ADD_BYTES |
| Routing.NoMoreFit | vsearch/client.py:106-108 | and per_request is the most that is sure to: one more row with the largest payload would be too much |
| Routing.RequestIsLoggable | vsearch/client.py:122-137 | a request's vectors make a matrix with a payload for each row, and if each row alone fits a log record, the request does |
| LawfulWorlds.Decided | vsearch/client.py:97-189 | what the coordinator may decide by what it knows, it may decide in the world, and the world then shows the cluster after that decision |
| LawfulWorlds.Reported | vsearch/server.py:69-75 | a Status reply is the last seq and next free id of that replica as its disk and memory are in the world at that point |
| LawfulWorlds.Arrived | vsearch/server.py:32-51 | an Add call that reaches a replica of the world, crash in the middle or not, reply lost or not, leaves a world that shows the chunk as answered with that reply, or as failed |
| LawfulWorlds.Occurred | vsearch/server.py:77-141 | what replicas do meanwhile, crashes, restarts, lost disks, syncs, leaves a world that is the same to the coordinator |
| Coordinators.GrpcCoordinator.constructor | vsearch/client.py:83-95 | a coordinator begins in a new world or in the one at the end of any run, in whatever state others left it, knowing no position; disks, memories and ledger are as they were |
| Coordinators.GrpcCoordinator.Count | vsearch/client.py:134-148 | every call made is noted, with the point of the run it was made at, the replica and whether it was answered: if and only if it came through to a replica that could answer it in the world at that point |
| Coordinators.GrpcCoordinator.AskReplica | vsearch/client.py:177-178 | one Status call, at a point of the run that is given: answered if and only if the call came through and the replica was up in the world at that point, with what its disk and memory held there; otherwise the check is abandoned |
| Coordinators.GrpcCoordinator.AskAll | vsearch/client.py:177-180 | every replica of the shard has reported, each what it held at some point of the run during this call, unless a call brought no answer |
| Coordinators.GrpcCoordinator.TakePosition | vsearch/client.py:184-189 | the position is known if and only if all reported one seq; otherwise the error carries the seqs; the free id covers all replies either way |
| Coordinators.GrpcCoordinator.CheckShard | vsearch/client.py:175-189 | a position is known afterwards if and only if every replica answered and they agreed, each reply being what that replica held at a point of the run during this call; then or if they differ, the free id is the largest of the old one and those they reported, and the error carries the seqs they reported |
| Coordinators.GrpcCoordinator.CheckShards | vsearch/client.py:167-189 | all positions are known afterwards if and only if every unknown one could be learnt; unless a call brought no answer, the free id is the largest of the old one and all that replicas reported, each at a point of the run during this call, and an error carries the seqs of the shard whose replicas differ |
| Coordinators.GrpcCoordinator.ForgetPositions | vsearch/client.py:162-165 | no position is known; the run goes on by this one decision, which touches no replica, no id and no write |
| Coordinators.GrpcCoordinator.CallAdd | vsearch/client.py:134-148 | one Add call, at a point of the run that is given: a reply comes if and only if it was not lost and the replica, in the world at that point, was up and took the write; it carries the size after the write, and no reply marks the chunk as failed; no other shard's view changes |
| Coordinators.GrpcCoordinator.CollectReplies | vsearch/client.py:139-148 | every call is waited for; if all were acknowledged they reported one size |
| Coordinators.GrpcCoordinator.NoteReplies | vsearch/client.py:154-159 | every shard written to moves on by one and its size is the one reported, unless sizes differ |
| Coordinators.GrpcCoordinator.SendRound | vsearch/client.py:122-153 | one round of chunks: all in the ledger and all positions one further, or all positions forgotten |
| Coordinators.GrpcCoordinator.SendAll | vsearch/client.py:121-159 | the rounds together put every request of every share in the ledger, or forget all positions |
| Coordinators.GrpcCoordinator.Add | vsearch/client.py:97-160 | when it returns, the run has gone on from where it was, every row has its own new id, is on the shard its id or the caller names, and every request it went in is in the world's ledger, acknowledged by every replica of its shard; requests of more than one row are within MAX_ADD_BYTES, and loggable if each row is; it fails as unavailable or half-written if and only if some call made for it brought no answer; as out of sync only if replicas of the shard named differed in what they reported during it, with those seqs; for want of ids only if they run out; if no call is lost, all replicas asked agree and there are ids, it returns; a failure before sending leaves the ledger alone, one during sending forgets all positions; it never finds diverged replicas; all this whatever the replicas do between and during calls |
| Promises.ReceiptsLast | vsearch/server.py:38-51 | however a run goes on from a world, if no host installs fewer writes than it has: the ledger only grows, and every write in it then is read back later from every disk it was acknowledged from that is not lost |
| Promises.AddedRequestsAreOnDisk | vsearch/client.py:97-160 | so every request of an `add` that returned, under its number, after one history |
| Promises.AddedRowsAreRead | vsearch/client.py:97-160 | and every row: each replica of its shard that still has the disk it acknowledged from comes up, after any crashes, with that vector under its id with its payload |
| BeamSearch.ArgMin | vsearch/hnsw.py:104 | the first of the smallest distances |
| BeamSearch.GreedyDescend | vsearch/hnsw.py:88-110 | a walk from the entry, each hop to the first of the closest neighbours, that being closer; it stops exactly where no neighbour is closer |
| BeamSearch.PushResult | vsearch/hnsw.py:145-148 | the kept nodes with one more, without the farthest if they are too many |
| BeamSearch.LookAround | vsearch/hnsw.py:137-148 | expanding a node keeps the results the ef closest allowed nodes seen, and gives up none closer than them |
| BeamSearch.SearchLayer | vsearch/hnsw.py:112-150 | on any graph it ends with exactly min(ef, reachable) distinct reachable nodes, the ef closest of all it saw, every one expanded; a neighbour of a result is a result or no closer than any; ef = 0 does as 1; and what it returns is a function of graph, distances, entry and ef |
| BeamSearch.SearchLayerFiltered | vsearch/hnsw.py:152-187 | the same among the allowed nodes: min(ef, allowed reachable) of them, though the walk passes through the others |
| BeamSearch.LocallyOptimal | vsearch/hnsw.py:112-187 | what any finished search has: its count, its reach, and no neighbour of a result that is allowed, left out and closer than a result |
| Neighbours.SelectDiverse | vsearch/hnsw.py:211-224 | nearest first, until m are picked, a candidate is picked if and only if it is closer to the base than to every one picked before |
| Neighbours.DiverseIsUnique | vsearch/hnsw.py:211-224 | that determines the choice, which is not empty if there are candidates |
| Neighbours.SelectNeighbours | vsearch/hnsw.py:197-224 | at most m distinct candidates, at least one if there is any; the first m in stable order, or the diverse choice |
| Neighbours.ClosestAreKept | vsearch/hnsw.py:197-210 | without the heuristic, or with no more than m candidates: no candidate left out is nearer than one kept, or as near and before it |
| Neighbours.SelectionIsDiverse | vsearch/hnsw.py:197-224 | each kept one is strictly closer to the base than to every earlier kept one; each other is at least as close to a kept one as to the base, or m were kept that are no farther than it |
| Neighbours.SelectionIsUnique | vsearch/hnsw.py:197-224 | candidates, distances and rule leave one selection only |
| HnswIndexes.LinkBack | vsearch/hnsw.py:260-265 | a neighbour's list with the new node, cut back by selection if it grew too long |
| HnswIndexes.Connect | vsearch/hnsw.py:258-265 | the new node has the selected neighbours, each of them is linked back or pruned, and no other list changes |
| HnswIndexes.ConnectedIsUnique | vsearch/hnsw.py:258-265 | and so one layer only |
| HnswIndexes.ConnectedIsGood | vsearch/hnsw.py:256-265 | linking keeps a layer free of loops and repeats, closed, within its degree, and with an out-link for every node of two or more |
| HnswIndexes.LinkLayer | vsearch/hnsw.py:250-267 | one layer of an insert: neighbours are selected among what a beam search finds there, and the layer stays good |
| HnswIndexes.Descend | vsearch/hnsw.py:244-247 | from layer to layer: what it ends on is reached by greedy walks, one on each layer, each from where the one above it ended |
| HnswIndexes.InsertedIsGood | vsearch/hnsw.py:226-272 | nested layers, layer 0 with all nodes, the entry point the first node that reached the top layer: an insert keeps all of it |
| HnswIndexes.LinksAreKept | vsearch/hnsw.py:256-265 | an insert cuts back only lists that grow beyond 2M on layer 0, or M above; others keep their links and get none but the new node |
| HnswIndexes.Hnsw.Append | vsearch/hnsw.py:70-81 | the stored vectors are those before and the new one, doubled capacity or not |
| HnswIndexes.Hnsw.SetVectors | vsearch/hnsw.py:56-68 | the rows as given, or at unit length |
| HnswIndexes.Hnsw.Register | vsearch/hnsw.py:232-236 | the node is on every layer up to its level, without links, and nothing else changes |
| HnswIndexes.Hnsw.Insert | vsearch/hnsw.py:226-272 | the index stays good; the entry point and the top layer stay unless the node is the first or its level higher than the top, and then they are the node and its level; each layer is linked from where the search of the one above ended, the topmost from the end of greedy walks down to it; the whole state afterwards, vectors, layers with their links, entry point, top layer and generator, is one function of the state before and the vector |
| HnswIndexes.Hnsw.SearchWithDistances | vsearch/hnsw.py:280-293 | layer 0 is searched from where the greedy walks down from the entry point end: min(k, ef, allowed within reach) nodes, closest first then by id; the nearest of those seen, and the true nearest within reach if ef covers those |
| HnswIndexes.Hnsw.ExactAmong | vsearch/hnsw.py:295-306 | the true k nearest of the given nodes, in order, whatever the graph |
| Snapshots.CutJoined | vsearch/storage.py:64-74 | lists flattened into one array and their offsets are cut back into the same lists |
| Snapshots.LayerRoundTrip | vsearch/storage.py:67-74 | a layer saved in any node order loads as the same layer |
| Snapshots.LoadLayer | vsearch/storage.py:119-123 | the loop gives each node the slice of neighbours its offsets name |
| Snapshots.SaveSnapshot | vsearch/storage.py:48-92 | the arrays are those of the shard's whole state, generator state included |
| Snapshots.LoadSnapshot | vsearch/storage.py:99-137 | from any format that is supported: the very state that was saved, but for an ef_search given instead; any other format is refused |
| Snapshots.SaveAndLoad | vsearch/storage.py:48-137 | saving and loading gives a shard in the same state, generator included |
| Filters.KeysKeepTypesApart | vsearch/filtering.py:27-34 | two values have the same key if and only if they are the same value of the same field: True and 1 do not |
| Filters.NormalizeFilter | vsearch/filtering.py:37-55 | refused if and only if some field has no value or one that is not indexed; otherwise every field with its values as a list |
| Filters.PayloadIndex.Add | vsearch/filtering.py:75-85 | the id is entered under exactly the keys of its payload, every item of a list included |
| Filters.PayloadIndex.CatchUp | vsearch/filtering.py:87-93 | however indexing is split over calls, the index is that of all payloads |
| Filters.PayloadIndex.HasAny | vsearch/filtering.py:100-102 | marks exactly the vectors with one of the values |
| Filters.PayloadIndex.Matching | vsearch/filtering.py:95-104 | marks exactly the vectors whose payload, read directly, satisfies the AND of ORs |
| Merging.MergeIsTopOfAnswers | vsearch/cluster.py:132-139 | whatever the shards answer, the merge is the k closest of their hits, in order |
| Merging.MergeAddsNothing | vsearch/cluster.py:132-139 | and each of its hits is one some shard gave |
| Merging.MergeIsGlobalTop | vsearch/cluster.py:132-139 | for every spread of the vectors over the shards: merging the shards' own top k is the top k of them all |
| Merging.MergeIsGloballyNearest | vsearch/cluster.py:132-139 | the same up to the choice among equal distances, when the shards choose freely |
| Shards.FewMatchesAreExact | vsearch/cluster.py:109-111 | at most EXACT_ADVANTAGE * ef matches force exact search |
| Shards.ExactIff | vsearch/cluster.py:109-111 | the search is exact if and only if the square of the matches is at most EXACT_ADVANTAGE * ef * the vectors stored |
| Shards.Shard.AddBatch | vsearch/cluster.py:161-164 | ids, payloads and vectors grow together, blank payloads if none are given; the whole state afterwards is one function of the state before and the batch |
| Shards.Shard.NextGlobalId | vsearch/cluster.py:189-192 | one more than the largest id stored |
| ShardEngines.ApplyAll | vsearch/cluster.py:161-164 | a shard that is sent some writes ends in the fold over them of one function, from the state it was in |
| ShardEngines.Build | vsearch/storage.py:237-265 | a new shard sent the writes of a history is in the state that the engine of the log layers gives that history |
| ShardEngines.RestoredStaysEqual | vsearch/storage.py:84-86 | a shard saved and loaded again is, after any further writes, in the very state of the one that never stopped: the same graph as its twin |
| ShardEngines.EqualHistoriesEqualShards | vsearch/storage.py:115-116 | two disks that hold one history, however split into snapshot and log, open as equal shards |
| ShardEngines.IdsOfState | vsearch/cluster.py:189-192 | the shard of a history stores the history's ids in order, so its size and next free id are those of the history |
| ShardEngines.ItemsOfState | vsearch/cluster.py:161-164 | the shard of a history stores the rows of its writes in order, each vector with its id and its payload |
| ShardEngines.RealEngine | vsearch/storage.py:206-280 | the real record format and the real shard meet all that the runs of the world ask of an engine |
| ShardEngines.ReplicasAreTwins | vsearch/storage.py:84-86 | in every run of the world: two replicas of a shard whose disks open with the same last seq are in the same state, links and generator included |
| Shards.Shard.Nearest | vsearch/cluster.py:166-177 | only matching vectors; with a filter the true k nearest of them if and only if the square of their number is at most EXACT_ADVANTAGE * max(ef_search, k) * the vectors stored, otherwise what the filtered walk finds among them; without a filter the graph's answer |
| Shards.Shard.Search | vsearch/cluster.py:179-182 | the same, with the stored ids: every hit matches the filter; with few matches the hits are the k nearest matching ones, all of them if they are no more than k, otherwise layer 0 is searched among the matching ones from the end of the greedy walks |
| Shards.SearchAll | vsearch/cluster.py:285-297 | with or without a filter, every hit is a matching vector of some shard; if the matches are few on every shard, the merged answer is the k nearest of all matching vectors together |
| Failovers.ReplicaOrderIsFair | vsearch/client.py:296-305 | every replica once, those that failed lately last, the one whose turn it is first if it is not one of them |
| Failovers.ReplicaOrderIsInTurn | vsearch/client.py:296-305 | of two replicas that are both up or both down, the one whose turn comes sooner goes first |
| Failovers.EachHasATurn | vsearch/client.py:299-300 | of n searches in a row, each of the n replicas has the first turn in exactly one |
| Failovers.SearchCoordinator.TakeOrder | vsearch/client.py:296-305 | and the turn passes to the next |
| Failovers.SearchCoordinator.Round | vsearch/client.py:272-292 | one pass over the pending calls settles each or sends it to its next replica; it raises only for a refusal by a replica it asked |
| Failovers.SearchCoordinator.ScatterGather | vsearch/client.py:257-294 | ends for every pattern of failures; every target gives one answer or is missing, or a call it made was refused and it raises; failovers grows by failed attempts minus missing shards; the turns pass on and the retry times are set, from readings of the clock during the search, and cleared, for exactly the replicas that failed and answered; the result is the merge of the answers |
| Failovers.MissingIffAllFailed | vsearch/client.py:277-290 | a target is missing if and only if each of its replicas was tried and failed |
| Passages.HardSplit | vsearch/chunking.py:118-127 | ends; the text is cut only where what is left is too long, at the last space that leaves a part within the limit, or at the limit if there is none; none is empty or too long; only spaces are lost |
| Passages.HardPartsFit | vsearch/chunking.py:118-127 | for every text and limit: that rule's parts fit, and the text is those parts in order with nothing but spaces after each |
| Passages.PartsBeginClean | vsearch/chunking.py:118-127 | no part after a cut begins with a space |
| Passages.TailStart | vsearch/chunking.py:158-165 | the longest tail within the overlap that leaves room for the next unit |
| Passages.Pack | vsearch/chunking.py:151-168 | no passage is too long; passages are contiguous windows of the units with strictly advancing ends, covering all, each closed only when the next unit did not fit, sharing such a tail |
| Passages.TailsDropped | vsearch/chunking.py:151-168 | without the shared tails the windows are every unit once, in order |
| Passages.JoinKeepsInk | vsearch/chunking.py:147-148 | joining units loses and adds only white space |
| Lines.LinesKeepInk | vsearch/chunking.py:177 | cutting a text into lines takes only white space |
| Lines.LinesRoundTrip | vsearch/chunking.py:177 | lines written one after the other, each with "\n" or each with "\r\n", are the lines read |
| Lines.LinesAreLines | vsearch/chunking.py:177 | no line has a line boundary in it |
| Markup.Sections | vsearch/chunking.py:33-53 | the sections are the stretches between one heading outside code and the next, each under the trail of headings above it |
| Markup.TrailIsNested | vsearch/chunking.py:49-51 | a trail runs from outer to inner levels and ends with the heading itself |
| Markup.TrailIsWhatEncloses | vsearch/chunking.py:48-51 | a trail has exactly the headings so far that no heading of the same level or a higher one has followed, in order |
| Markup.HeadingIff | vsearch/chunking.py:39-47 | a line is a heading if and only if headings count, it looks like one, it is not in code, and it is no fence |
| Markup.FenceWasOpened | vsearch/chunking.py:39-43 | a line is in code only after a fence outside code, and before the next line with the same marker |
| Markup.FenceStaysOpen | vsearch/chunking.py:39-43 | and between such lines it is |
| Markup.Blocks | vsearch/chunking.py:56-81 | fenced code with all its lines, and the longest stretches of other lines without a blank one: blocks begin, end and are of the kind their lines say, lines between them are blank, and no text is lost |
| Chunking.Pieces | vsearch/chunking.py:88-115 | lines of code, sentences of prose, items of lists with their continuation lines put back on: all the text of the block, in order, but white space |
| Chunking.UnitsOfBlock | vsearch/chunking.py:130-140 | its pieces, hard-split where too long: a blank line before the first, each other attached as its piece says, later parts by a space |
| Chunking.Units | vsearch/chunking.py:130-140 | the units of all blocks of a section, none too long, with all the text, in order |
| Chunking.ChunkDocument | vsearch/chunking.py:171-181 | refused unless 0 <= overlap < max_chars; otherwise the chunks are the visible passages of all sections, in order, numbered, none too long, packed from the units of each section's blocks; nothing is lost: each chunk begins with at most `overlap` of the text that ends the one before it under its heading, and the rests together are all the text of the document but its headings, in order, white space aside |
| Chunking.PlainTextKeepsInk | vsearch/chunking.py:171-181 | read without headings, the rests are all the text, white space aside |
| Layouts.CodePieces | vsearch/chunking.py:98-99 | code is cut between lines only, and what attaches each is a newline |
| Layouts.ProsePieces | vsearch/chunking.py:100-101 | prose is its lines, stripped, with a space between them, cut into sentences, a space between them |
| Layouts.ItemsAreWhole | vsearch/chunking.py:103-108 | a list's items are its lines cut before each that begins an item; later lines of an item come after a space |
| Layouts.ListPieces | vsearch/chunking.py:109-115 | an item that fits is one piece, after a newline; one that does not is its sentences, a space between them |
| Layouts.BlockReads | vsearch/chunking.py:130-140 | the units of a block come after a blank line and read as the block does: code with its newlines, prose with a space between sentences, a list item by item; a piece too long for one passage has a space at each cut |
| Layouts.CodeIsKept | vsearch/chunking.py:98-99 | code none of whose lines is too long reads as it stands |
| Layouts.BlocksInPassage | vsearch/chunking.py:143-168 | a passage whose window covers some blocks has them as they read, a blank line between any two and between them and the rest, before newlines are taken off its ends |
| Layouts.ChunksAreVisible | vsearch/chunking.py:171-181 | the chunks are the passages with something to see, in order and numbered, each with its section's heading |
| Layouts.TrailReads | vsearch/chunking.py:33-53 | that heading is the titles of the trail with " > " between them |

## Left out

- gRPC, protobuf, deadlines, threads, processes and the command line: calls are steps.
- In-memory shards in the replication proof: their writes are deliberately unchecked (`vsearch/client.py:181-183`).
- Several coordinators writing at once, a stale one that skips `refresh`, and an `Add` call that a server still has queued after its deadline: the design assumes none of them.
- fsync switched off, a disk that fills up or errs without a crash (a torn append is then followed by more appends), and disks that reorder writes.
- UTF-8 and JSON text, `.npz` files: payloads are bytes, a parsed payload is a parameter, a snapshot is its arrays. The log and the snapshot are modelled separately: in `Disks` a snapshot holds a state as it is, which is what `Snapshots.SaveAndLoad` justifies.
- Coordinators.GrpcCoordinator.Add: an id that does not fit 64 bits is refused before anything is sent, where the code fails while building the request; `tag_namespace` and `shard_for_namespace` are not modelled, the shard of a namespace is a parameter.
- Repairs.RepairShard: one shard at a time; the sizes it notes and the positions it forgets afterwards are those of `Clusters` (`Sync`, `Refresh`). An error that is not retryable ends it like a broken call.
- CatchUps.CatchUp: in this method's world the peer neither restarts nor loses its disk between calls; `Worlds` has runs in which it does.
- CatchUps.FetchSnapshot: the peer has all the follower has, as it had when it refused its log; a peer that came back empty is in `Worlds` (`Refinements.InstallShows`).
- DurableShards.DurableShard.Open: the disk keeps some history or cannot be opened, as every disk of a life or a run of the world does (`Disks.LifeRecovers`, `WorldRuns.WorldsAreRuns`).
- LogFormat.ParsePayloads: a payload is its bytes; one that is not UTF-8 makes the code raise.
- Shards.Shard.Search: a filtered search with ef_search and k both 0 fails in the code, and is excluded; the k nearest are claimed where ids increase with the rows, as the coordinator makes them (`Guarantees.IdsAreUnique`).
- Shards.SearchAll: the k nearest are claimed where the matches are few on every shard; otherwise what a shard finds is its graph's answer (`Shards.Shard.Search`), merged by `Merging`.
- Merging.MergeIsTopOfAnswers: no hit occurs twice in an answer, since no id is stored twice.
- HnswIndexes.Hnsw.Insert: among candidates at equal distance the code goes by the layout of its heap, the model by id; either is a function of the state. Whether every node can be reached from the entry point is not promised: pruning can drop back-links. Recall is statistical.
- HnswIndexes.Hnsw.SearchWithDistances: a filtered search with ef_search and k both 0 fails on an empty result list in the code, and is excluded here.
- BeamSearch.SearchLayerFiltered: an ef of 0 fails on an empty result list in the code, and is excluded here.
- BeamSearch.SearchLayer: heaps are sets of nodes with the order `heapq` gives their entries, not arrays.
- Filters.NormalizeFilter: a field name that is not a string, and a filter that is not a dict, are ruled out by types; which field is named in the error is not fixed.
- Failovers.SearchCoordinator.ScatterGather: a replica's reply is fixed for the length of one search, which asks it at most once; calls still pending when one is refused are dropped, as in the code.
- `plan_query`, `encode_payloads`, `merge_top_k`, `health.py`, `ops.py`, `memory.py`, `documents.py`, embedders, models, MCP and agent code: thin, or input and output.
