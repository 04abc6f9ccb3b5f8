# STN-Stratum, modelled and verified in Dafny

STN-Stratum stands between miners, who speak STNM frames over TCP, and a Chain node, which answers STNC v2
requests. This project models the Linux server as a state machine whose every system call and every Chain
exchange may turn out any way at all, together with the codecs, the share arithmetic, the hash, the
transport, the telemetry snapshot, the session core and the configuration parser it rests on, and proves
what holds on every input and on every run.

`dafny verify dfyconfig.toml` checks the whole project.

## How it is laid out

| file | what it holds |
|---|---|
| `Basics.dfy`, `Bytes.dfy` | options, sequences with one place struck out; big-endian numbers: reading and writing are inverse, the first differing byte decides the order |
| `ShareTarget.dfy`, `HashRate.dfy`, `Sha256.dfy`, `ShareVerify.dfy` | share arithmetic, the hash and the verdict |
| `Sha256Constants.dfy`, `Sha256Vector.dfy` | where the numbers in SHA-256 come from, and its published example |
| `Transport.dfy`, `RpcClient.dfy`, `Delivery.dfy` | the retrying connection to the Chain, the client on top of it, and when they succeed |
| `MinerJob.dfy`, `Framing.dfy` | the JOB message; reassembly of miner frames |
| `ServerModel.dfy` | the live server's handlers as functions from state to state, with a log of everything observable |
| `ServerInvariant.dfy`, `ServerRuns.dfy` | the invariant, kept by every handler, stage and run |
| `ServerTheorems.dfy`, `ServerJobs.dfy`, `ServerCredit.dfy`, `Submissions.dfy`, `Failover.dfy` | what follows on every run |
| `ServerOutcomes.dfy` | what the server does, read off the bytes from the Chain and from the miners |
| `ServerWire.dfy` | runs of the server together with its connection to the Chain |
| `Scenarios.dfy` | runs that reach the states the negative results are about |
| `ClientList.dfy`, `Server.dfy` | the server object over a heap-allocated linked list; each method refines the handler function |
| `Seqlock.dfy`, `Snapshot.dfy`, `Telemetry.dfy` | the published snapshot, access by access; its cells; what the status says |
| `StratumCore.dfy` | the session core with its duplicate log, and the Chain adapter |
| `ChainConfig.dfy`, `ConfigGrammar.dfy`, `ConfigParser.dfy` | the parser as a function, its grammar, and the parser with its allocations |

Functions named after the program's routines say what a step does; the properties are in the lemmas about
them. A run is any sequence of accepts, service passes, polls and pending-job sweeps, in any order and with
any outcomes (the program's loop is one such order). A method of the server object, or of the transport,
client, hash context, session or parser, ends in exactly the state the corresponding function gives, so
every lemma about the functions is about the objects too. The server object takes the Chain's replies as
inputs; `ServerWire.dfy` supplies, for every behaviour of the network, the connection that brought them.

Three statements one might expect turn out to hold only under a condition, which is given exactly:

- The stored hash rate is the exact one if and only if `RateIsExact`; otherwise it is one too low
  (`HashRate.RateError`, with an input in `HashRate.RateCanBeOneLow`).
- A telemetry read is one whole snapshot if fewer than 2^31 publications complete between its two loads,
  and at 2^31 it can be torn (`Snapshot.ReadsShowTicks`, `Seqlock.TornAtTheBound`).
- What a miner was told last is what it is judged by until a poll brings the active work id over another
  block; such a poll is accepted silently and breaks it if and only if some miner is at work
  (`ServerJobs.PollCurrent`; a run in `Scenarios.ReissueRun`).

Three more facts a maintainer may want to know: a template within 69 bytes of the largest payload is
adopted and sent out although its block can never be submitted, and winning on it ends the work of all
miners (`Scenarios.OversizeAdopted`, `Scenarios.OversizeTemplate`); a session of the core that has logged 64
nonces never reaches the Chain again, on any job (`StratumCore.LogNeverClears`); and the server and the
session core accept no identity in common (`Submissions.IdentitiesDiffer`).

## Where code and documentation disagree

The model follows the code. docs/PROTOCOL.md:46-75 has an 84-byte JOB header and work cleared on
UNAVAILABLE; the code sends 116 bytes and keeps the work. docs/STRATUM_TIMEOUT_REPAIR.md:26 speaks of one
frame per client and pass; the code drains a client until its socket would block.

## Model

| member | source | states |
|---|---|---|
| ServerTheorems.RunAgreement | src/stn_stratum_server.c:2754-2769 | on every run each listed session has a job exactly when it is registered and work is active, then holds the active id and has been sent exactly one JOB in this period of that id; otherwise its sent id and hash rate are zero |
| ServerTheorems.ClosingSweepIdle | src/stn_stratum_server.c:2381-2405 | after any run the sweep that closes the loop sends nothing and removes nobody |
| ServerTheorems.RunTemplate | src/stn_stratum_server.c:2500-2523 | on every run active work implies a reachable Chain, a whole template of at least 236 bytes with a consistent block length, and base and id equal to its bytes 0..63, so JOB building never fails; the active server index stays in range |
| ServerTheorems.RunFraming | src/stn_stratum_server.c:2219-2364 | on every run the frames a session's handlers were given are exactly the splitter's frames of all bytes received from it, and the buffer holds the splitter's rest, always shorter than the largest frame |
| ServerTheorems.RunHonest | src/stn_stratum_server.c:1689-1735 | on every run RESULT 0 directly follows an exchange of a submission with its same-method, same-id, code-0, exact-length response |
| ServerTheorems.RunList | src/stn_stratum_server.c:1474-1507 | on every run client_count is the length of the list and no session is listed twice |
| ServerTheorems.SubmissionEndsWork | src/stn_stratum_server.c:1984-2085 | a submission ends the work exactly for the listed Chain answers, never for REJECTED, moves to the next server exactly for a block answered by silence or UNAVAILABLE, and otherwise keeps the work byte for byte |
| ServerTheorems.SubmitAnswered | src/stn_stratum_server.c:1846-2085 | every SUBMIT of a registered miner that can be reached gets exactly one RESULT and nobody else gets any: 0 exactly when the Chain accepted, 1 when proof or Chain rejects, 2 for work not active here or stale at the Chain, 4 for a bad target or a protocol answer, 3 otherwise |
| Submissions.WhatIsAsked | src/stn_stratum_server.c:1846-2064 | what a SUBMIT asks of the Chain, in numbers: with d the SHA-256 value of domain and header, exactly the work request when d is within the template's target and the buffers and the identity fit, exactly the share request when d is above it and within the share limit, otherwise nothing |
| Submissions.VerdictNumbers | src/stn_stratum_server.c:1944-1964 | the server's verdict is the comparison of d with the Chain target and the share limit |
| Submissions.ShareReachesChain | src/stn_stratum_server.c:1964-1990 | a share is put to the Chain exactly when the RPC buffers can be had |
| ServerOutcomes.BlockOnWire | src/stn_stratum_server.c:2047-2085 | a winning block by the bytes that come back: accepted, refused with any code, or lost, what the miner is told, whether the work ends and whether the next server is selected |
| ServerOutcomes.ShareOnWire | src/stn_stratum_server.c:1984-2016 | the same for a share, which never moves the server |
| ServerOutcomes.PollOnWire | src/stn_stratum_server.c:2407-2498 | a poll refused with 5 or 9 keeps work, sessions and server, refused with any other number it ends the work and keeps the server, lost it moves one on and starts the request ids over |
| ServerTheorems.PollOutcome | src/stn_stratum_server.c:2407-2579 | OK brings its template, UNAVAILABLE changes nothing, every other answer ends the work, and only a lost exchange moves one server on |
| ServerTheorems.ProgressCounts | src/stn_stratum_server.c:2126-2202 | under the invariant a progress report counts exactly when it names the active work, and the rate is then at most one below the exact one; for other work or no elapsed time it is zero; no other session changes |
| ServerTheorems.PollReplaces | src/stn_stratum_server.c:2536-2579 | work that a poll changes is the body of the Chain's code-0 answer to that very request |
| ServerTheorems.OnlyPollsReplaceWork | src/stn_stratum_server.c:2754-2769 | over every stage new or different work comes from a poll answered with it, never from serving miners |
| Failover.FailoverCycles | src/stn_stratum_server.c:1787-1844 | over any stretch in which no poll reaches the Chain, with any accepting, serving and sweeping between the polls, the server is as many places on, round-robin, as polls were lost, and there is no work |
| Failover.EachServerTriedOnce | src/stn_stratum_server.c:1826-1844 | within one round of such a stretch no server is selected twice |
| Failover.EveryServerTried | src/stn_stratum_server.c:1826-1844 | a stretch with as many lost polls as servers selects every one of them |
| Failover.RunFailover | src/stn_stratum_server.c:2754-2769 | the same after any history of any run |
| ServerJobs.PollCurrent | src/stn_stratum_server.c:2536-2579 | a poll keeps every working miner's last JOB equal to the active template's message if and only if it does not bring the active id over another block while somebody works |
| ServerJobs.ReissueLosesTrack | src/stn_stratum_server.c:2536-2560 | from any sound state with a miner at work, any code-0 answer with such a template does break it |
| Scenarios.ReissueRun | src/stn_stratum_server.c:2754-2769 | runs that get there: one miner registers with any valid address, work arrives, and the id comes again over another block |
| Scenarios.PollAdopts | src/stn_stratum_server.c:2536-2579 | any well-shaped template up to the largest payload is adopted and every registered miner gets its JOB |
| ServerJobs.ToldIsJudged | src/stn_stratum_server.c:1603-1654 | on every run without such a poll, the last JOB a working miner received carries the active id, the share and Chain targets and the block that its submissions are judged on |
| ServerJobs.SameMessage | src/stn_miner_job.c:40-55 | two JOB messages are equal exactly when the templates' ids and blocks are |
| ServerCredit.MutationsAreCredited | src/stn_stratum_server.c:1846-2085 | on every run a mutating request goes out only directly after a SUBMIT frame; it carries that frame's id and nonce, the address the same connection registered, and a header whose SHA-256 meets the Chain target (work) or the share value (share) of its own target field |
| ServerCredit.ResultsAnswerTheirSubmit | src/stn_stratum_server.c:1710-1735 | on every run a RESULT goes to the connection whose SUBMIT it answers, and is a success only through a mutation asked for that frame |
| ServerWire.RunOnTheWire | platforms/linux/stn_rpc_linux.c:244-298 | on every run of server and transport together, for every behaviour of the network, no more whole mutations reach the Chain than SUBMIT frames were received, and the connection ends closed or at a frame boundary |
| ServerWire.AcceptedOnTheWire | src/stn_stratum_server.c:1689-1735 | and RESULT 0 directly follows one attempt that sent the mutation whole and got its own code-0 response whole |
| ServerWire.ExchangeInHistory | platforms/linux/stn_rpc_linux.c:174-298 | every exchange of a run keeps alignment and the bounds on attempts and copies |
| ServerRuns.StageKeeps | src/stn_stratum_server.c:2754-2769 | each stage, whatever its outcomes, keeps the whole invariant: agreement, templates, history, list and framing |
| ServerRuns.RunKeeps | src/stn_stratum_server.c:2754-2769 | so the invariant holds after every run |
| ServerRuns.EachVisitedOnce | src/stn_stratum_server.c:2367-2379 | every session present at the start of a pass is visited exactly once, in order, whatever is removed on the way |
| ServerRuns.ServiceList | src/stn_stratum_server.c:2205-2364 | serving a session leaves the list as it was or strikes exactly that session |
| ServerOutcomes.ServiceFate | src/stn_stratum_server.c:2205-2364 | a session survives a pass if and only if its socket neither closes nor fails before it would block, what was delivered does not run into a bad header, and it survives every frame in it; otherwise its removal is on record |
| ServerOutcomes.ListedAfterPass | src/stn_stratum_server.c:2205-2364 | and it is listed after the pass, and counted, exactly then |
| ServerOutcomes.HandlerKeeps | src/stn_stratum_server.c:1846-2202 | which frames a session survives: a first valid address whose JOB, if there is work, can be sent; once registered a submission whose RESULT can be sent, and every report |
| ServerOutcomes.EveryoneServed | src/stn_stratum_server.c:2367-2379 | after a pass over the list everyone still listed was given exactly the bytes its own socket delivered |
| ServerOutcomes.FrameBytes | includes/stn_miner_protocol.h:11-37 | the three frames there are, byte by byte |
| ServerOutcomes.AddressBytes | src/stn_stratum_server.c:2088-2102 | an address, character by character |
| ServerRuns.HandleTouches | src/stn_stratum_server.c:2328-2364 | handling a frame removes at most its own session and disturbs no other buffer |
| ServerInvariant.HandleKeeps | src/stn_stratum_server.c:2328-2342 | every miner frame, with every outcome, keeps the invariant |
| ServerInvariant.SubmitKeeps | src/stn_stratum_server.c:1846-2085 | so does every submission, including those that end the work of all sessions |
| ServerInvariant.AddressKeeps | src/stn_stratum_server.c:2104-2124 | so does registration, which sends the one JOB that is due |
| ServerInvariant.ProgressKeeps | src/stn_stratum_server.c:2126-2202 | so does a progress report |
| ServerInvariant.RefreshKeeps | src/stn_stratum_server.c:2407-2599 | so does every poll |
| ServerInvariant.PendingKeeps | src/stn_stratum_server.c:2381-2405 | the sweep settles every session that was due a JOB, while removing those whose send fails |
| ServerInvariant.PendingIdle | src/stn_stratum_server.c:2381-2405 | in a settled state it changes nothing |
| ServerInvariant.TemplateAnswer | src/stn_rpc_client.c:144-165 | an OK answer to a poll is a well-shaped template that passes both length tests, so the malformed-template branches are dead; CAPACITY is never seen |
| Submissions.JudgedIsForwarded | src/stn_stratum_server.c:1937-2053 | the header hashed for the verdict is the one in the SUBMIT_WORK block, and the share payload's header once its nonce field is put in place; every other template byte is unchanged |
| Submissions.EncodersAgree | src/stn_chain_rpc_adapter.c:165-199 | the live SUBMIT_WORK payload and the adapter's are the same bytes exactly when the template's length field is right and the adapter does not refuse the block for its length |
| Submissions.IdentitiesDiffer | src/stn_stratum.c:30-42 | yet the two paths never carry the same identity: the server demands a hexadecimal digit where the session core demands a terminator |
| Submissions.BlockReachesChain | src/stn_stratum_server.c:2019-2064 | a winning SUBMIT asks the Chain exactly when both allocations succeed and the template leaves room for the identity, and then for exactly that block; otherwise for nothing |
| Scenarios.OversizeAdopted | src/stn_stratum_server.c:2536-2579 | a template within the last 69 bytes of the largest payload is adopted and sent to the miner on an actual run |
| Scenarios.OversizeTemplate | src/stn_rpc_client.c:59-66 | a winning SUBMIT on it asks nothing, is answered 4 and ends the work, whatever the Chain would have said |
| Submissions.SubmitAsksOnce | src/stn_stratum_server.c:1964-2053 | one SUBMIT hands the transport at most one request, and not one it repeats |
| Submissions.AtMostOneMutation | platforms/linux/stn_rpc_linux.c:244-298 | whatever the network does, at most one whole copy of that request reaches the wire |
| Submissions.BuildWorkPayload | src/stn_stratum_server.c:2019-2045 | the scratch buffer filled in place is the specified payload |
| Submissions.BuildSharePayload | src/stn_stratum_server.c:1965-1982 | the share buffer is the specified payload |
| Transport.ExchangeSafety | platforms/linux/stn_rpc_linux.c:244-298 | for every network behaviour a mutation is sent whole at most once and a read at most twice; afterwards the socket is dropped or at a frame boundary with every request answered; a reply is self-delimited and answers the last attempt |
| Transport.OnceFacts | platforms/linux/stn_rpc_linux.c:174-222 | one attempt keeps alignment, and the socket stays up exactly when a whole frame came back |
| Delivery.OnceDelivers | platforms/linux/stn_rpc_linux.c:174-222 | when the connection is or comes up, the network takes the request and gives one frame that ends where its header says, in any pieces with any interruptions, the attempt returns that frame if it is no longer than the capacity, and refuses it and drops the connection if it is |
| Delivery.ExchangeDelivers | platforms/linux/stn_rpc_linux.c:244-298 | so the exchange returns it, at once, or for a read on the second attempt |
| Delivery.WorkAccepted | src/stn_rpc_client.c:214-229 | over such a network the code-0 response to SUBMIT_WORK is answered Ok |
| Delivery.ShareAccepted | src/stn_rpc_client.c:231-246 | and that to SUBMIT_SHARE |
| Delivery.TemplateArrives | src/stn_rpc_client.c:191-212 | a poll over such a network, on either attempt, gets the template |
| Transport.SendAll | platforms/linux/stn_rpc_linux.c:120-145 | what reached the wire is a prefix, and the whole exactly on success |
| Transport.RecvAll | platforms/linux/stn_rpc_linux.c:147-172 | never more bytes than asked for, and exactly as many on success |
| Transport.RpcLinux.SendAndReceive | platforms/linux/stn_rpc_linux.c:244-298 | the transport object ends in the state and with the reply the exchange function gives |
| Transport.RpcLinux.SendOnce | platforms/linux/stn_rpc_linux.c:174-222 | so does a single attempt, dropping the socket on every failure |
| RpcClient.JudgeOk | src/stn_rpc_client.c:109-165 | success is reported for exactly one frame per payload: same method, same id, code 0, exact length, the shape the method demands |
| RpcClient.JudgeError | src/stn_rpc_client.c:23-39 | each error is reported for exactly the one empty response that carries its number, 2 to 10, and INVALID for whatever is neither such a response nor a success |
| Delivery.WorkOk | src/stn_rpc_client.c:214-229 | SUBMIT_WORK succeeds if and only if the payload can be sent and the reply is its code-0 response of 80 bytes |
| Delivery.ShareOk | src/stn_rpc_client.c:231-246 | SUBMIT_SHARE succeeds if and only if the payload has its one size and the reply is its code-0 response of 32 bytes |
| Delivery.AdapterStatus | src/stn_chain_rpc_adapter.c:40-54 | what the adapter reports for a submission, by the reply on the wire |
| RpcClient.RequestBytes | src/stn_rpc_client.c:85-95 | a request read back field by field |
| RpcClient.ResponseBytes | src/stn_rpc_client.c:109-126 | a response read back field by field |
| RpcClient.TemplateBytes | src/stn_rpc_client.c:144-155 | what a template must look like, byte by byte |
| RpcClient.IdClosedForm | src/stn_rpc_client.c:80-83 | the k-th request id is k mod (2^64 - 1), plus one; zero is never used |
| RpcClient.DistinctIds | src/stn_rpc_client.c:80-83 | calls fewer than 2^64 - 1 apart have different ids |
| RpcClient.CallSafety | src/stn_rpc_client.c:41-171 | a call over any network keeps alignment and the sending bounds, and OK means that the last attempt sent the request whole and got that very response |
| RpcClient.RequestIsRead | platforms/linux/stn_rpc_linux.c:284-289 | the two bytes the transport looks at single out INFO and MINING_TEMPLATE |
| RpcClient.Client.CallMethod | src/stn_rpc_client.c:41-171 | the client object answers, counts and drives the transport as specified; a call refused early leaves the transport untouched |
| RpcClient.BuildRequest | src/stn_rpc_client.c:85-95 | the buffer filled field by field is the request frame |
| Framing.ChunkIndependence | src/stn_stratum_server.c:2219-2364 | however a stream is cut into receives, interruptions, would-blocks and passes, the frames handed on are the splitter's |
| Framing.SplitCovers | src/stn_stratum_server.c:2219-2326 | frames and rest together are the stream, byte for byte, and every frame is well formed |
| Framing.SplitUnique | src/stn_stratum_server.c:2219-2326 | no stream can be cut into frames in two ways |
| Framing.NextFrameFacts | src/stn_stratum_server.c:2219-2326 | the buffer never exceeds 77 bytes, only whole frames are handed on, and the loop makes progress |
| Framing.NextFramePass | src/stn_stratum_server.c:2219-2326 | the receive loop gives up a connection exactly when what is left of this pass holds no further frame and ends, or begins with a bad header |
| Server.ReceiveFrame | src/stn_stratum_server.c:2219-2326 | the two receive loops give the specified next frame, wait or end |
| Sha256.Context.Update | src/stn_share_verify.c:14 | any split of a message into pieces leaves the context that the message as a whole would; fewer than 64 bytes are buffered and bits is eight times the length modulo 2^64 |
| Sha256.Context.Finish | src/stn_share_verify.c:15 | the digest is one-shot SHA-256 of everything absorbed |
| Sha256.Context.Transform | src/stn_share_verify.c:12 | one block is compressed as section 6.2.2 of FIPS 180-4 says |
| Sha256.OneRound | src/stn_share_verify.c:12 | the eight variables shifted along one after the other make one turn of section 6.2.2, step 3 |
| Sha256.FillSchedule | src/stn_share_verify.c:12 | the 64 schedule words are those of section 6.2.2, step 1 |
| Sha256.FinishShort | src/stn_share_verify.c:15 | padding that fits into the last block gives the digest of the padded message of section 5.1.1 |
| Sha256.FinishLong | src/stn_share_verify.c:15 | so does padding that needs a second block |
| Sha256.CompressConcat | src/stn_share_verify.c:14 | absorbing in two block-aligned parts is absorbing at once |
| Sha256.PadInjective | src/stn_share_verify.c:15 | two messages of admissible length never pad to the same blocks |
| Sha256Vector.DigestOfAbc | src/stn_share_verify.c:12-15 | the published example: the digest of "abc", through all 64 words and rounds |
| Sha256Constants.RoundConstantsAreCubeRoots | src/stn_share_verify.c:12 | each round constant is the first 32 bits of the fractional part of the cube root of its prime (section 4.2.2) |
| Sha256Constants.InitialIsSquareRoots | src/stn_share_verify.c:13 | the initial hash value comes from the square roots (section 5.3.3) |
| Sha256Constants.PrimesInOrder | src/stn_share_verify.c:12 | the primes they belong to are the first 64, none left out |
| Sha256Constants.ChSelects | src/stn_share_verify.c:12 | Ch takes each bit from its second or third argument as the first says |
| Sha256Constants.MajVotes | src/stn_share_verify.c:12 | Maj is what two of its arguments agree on, bit by bit |
| Sha256Constants.BigSigma0Rotates | src/stn_share_verify.c:12 | the rotations combined in it, as section 4.1.2 names them |
| Sha256Constants.BigSigma1Rotates | src/stn_share_verify.c:12 | the rotations combined in it, as section 4.1.2 names them |
| Sha256Constants.SmallSigma0Rotates | src/stn_share_verify.c:12 | the rotations and the shift combined in it, as section 4.1.2 names them |
| Sha256Constants.SmallSigma1Rotates | src/stn_share_verify.c:12 | the rotations and the shift combined in it, as section 4.1.2 names them |
| ShareVerify.NumericPartition | src/stn_share_verify.c:16-17 | with the server's share target the verdicts partition the digests: BLOCK up to the Chain target, QUALIFYING above it up to the share target, INVALID beyond |
| ShareVerify.Classify | src/stn_share_verify.c:17 | verdict and digest are those of the header with the nonce in place, hashed behind the domain; short blocks are invalid |
| ShareVerify.Le | src/stn_share_verify.c:16 | the early-exit scan is integer order |
| ShareVerify.ProofHash | src/stn_share_verify.c:17 | the streamed digest is one-shot SHA-256 of domain and header |
| ShareVerify.DomainBytes | src/stn_share_verify.c:7 | the hash domain, byte by byte, with its terminating zero |
| ShareTarget.JobShareTarget | src/stn_miner_job.c:10-39 | for every 32-byte target the carry loop gives min(2^255 - 1, ten times the target) |
| ShareTarget.ServerShareTarget | src/stn_stratum_server.c:1347-1375 | the server's copy succeeds exactly on 1..2^255 - 1 and there gives the same bytes |
| ShareTarget.OverflowTest | src/stn_miner_job.c:25-36 | the two byte tests are exactly "the product exceeds 2^255 - 1" |
| ShareTarget.ShareIsEasier | src/stn_miner_job.c:10-39 | the advertised target denotes the economic rule's number and is never harder than an admissible Chain target |
| ShareTarget.MaxTargetIsPow2 | src/stn_miner_job.c:25-33 | the saturation value is 2^255 - 1 |
| HashRate.RateError | src/stn_stratum_server.c:2164-2202 | the stored rate is never above min(2^64 - 1, floor(1000 hashes / elapsed)), at most one below, and equal to it if and only if the remainder is small or what the coarse divisor leaves of it is |
| HashRate.ResidueTest | src/stn_stratum_server.c:2187-2191 | the test on that residue decides exactly whether the coarse quotient is one short |
| HashRate.FineCase | src/stn_stratum_server.c:2172-2185 | that test holds whenever the remainder is at most (2^64 - 1) / 1000 |
| HashRate.CapUnreachable | src/stn_stratum_server.c:2187-2191 | the coarse quotient never exceeds 999, so the cap is dead |
| HashRate.RateCanBeOneLow | src/stn_stratum_server.c:2164-2202 | an input whose rate is reported one too low |
| HashRate.ComputeRate | src/stn_stratum_server.c:2164-2202 | the stored rate is computed without leaving the 64-bit range |
| MinerJob.BuildJob | src/stn_miner_job.c:40-55 | building fails exactly on templates that are too short or too long for the length field |
| MinerJob.JobFields | src/stn_miner_job.c:40-55 | what a miner reads: STNM, version 1, type 1, the work id, the economic rule's share target, the Chain target, the length of the block that follows, the initial nonce |
| Bytes.ValueOfEncode | src/stn_rpc_client.c:9-21 | reading a big-endian field gives back the number written |
| Bytes.EncodeOfValue | src/stn_rpc_client.c:9-21 | writing the number read gives back the bytes |
| Bytes.WriteBE | src/stn_rpc_client.c:17-21 | write_be changes exactly its field, to the big-endian digits |
| Bytes.ReadBE | src/stn_rpc_client.c:9-15 | read_be is the number the bytes denote |
| Bytes.ValueOrder | src/stn_share_verify.c:16 | the first differing byte decides the order of the numbers |
| ClientList.Clients.Remove | src/stn_stratum_server.c:1474-1507 | exactly one session is unlinked and released, the others stay in order, the list stays acyclic with no released session in it, and the saved successor is now at its place |
| ClientList.Clients.PushFront | src/stn_stratum_server.c:1656-1682 | a new session goes in front of the others |
| ClientList.Clients.ClearJobs | src/stn_stratum_server.c:1737-1752 | every session's job is cleared and nothing else changes |
| ClientList.Clients.Contains | src/stn_stratum_server.c:2344-2364 | the probe finds a session exactly when it is still listed |
| ClientList.Clients.TotalHashrate | src/stn_client_session.c:27-37 | min(2^64 - 1, sum over all sessions); the early return is exactly saturation |
| ClientList.Clients.Count | src/stn_client_session.c:39-49 | the number of sessions |
| Server.StratumServer.ClientRemove | src/stn_stratum_server.c:1474-1507 | the object refines client_remove of the state machine |
| Server.StratumServer.ClearTheWork | src/stn_stratum_server.c:1737-1770 | it refines clear_work: no session keeps a job |
| Server.StratumServer.NextChainServer | src/stn_stratum_server.c:1787-1844 | it refines the move to the next server |
| Server.StratumServer.ClientSendJob | src/stn_stratum_server.c:1603-1654 | it refines sending a JOB; at most the addressee leaves the list |
| Server.StratumServer.ClientSendResult | src/stn_stratum_server.c:1710-1735 | it refines sending a RESULT |
| Server.StratumServer.ProcessAddress | src/stn_stratum_server.c:2104-2124 | it refines registration |
| Server.StratumServer.ProcessHashProgress | src/stn_stratum_server.c:2126-2202 | it refines a progress report |
| Server.StratumServer.ProcessSubmission | src/stn_stratum_server.c:1846-2085 | it refines a submission, from the checks to the Chain's answer |
| Server.StratumServer.JudgeSubmission | src/stn_stratum_server.c:1937-2085 | its second half, from the share target and the verdict on |
| Server.StratumServer.DeliverFrame | src/stn_stratum_server.c:2328-2364 | a frame is handled and the session touched again exactly if it has not been released; reading or writing a released session is excluded by the accessors |
| Server.StratumServer.ServiceClient | src/stn_stratum_server.c:2205-2364 | it refines a service pass; only that session can be gone |
| Server.StratumServer.ServeAndAdvance | src/stn_stratum_server.c:2367-2379 | the successor saved before serving is the node to go on with, whether or not the session was removed |
| Server.StratumServer.ServiceClients | src/stn_stratum_server.c:2367-2379 | it refines a pass over all sessions |
| Server.StratumServer.SendPendingJobs | src/stn_stratum_server.c:2381-2405 | it refines the pending-job sweep, removals included |
| Server.StratumServer.RefreshWork | src/stn_stratum_server.c:2407-2599 | it refines a poll |
| Server.StratumServer.OnPollFailed | src/stn_stratum_server.c:2424-2498 | it refines every answer but OK |
| Server.StratumServer.AcceptClient | src/stn_stratum_server.c:1656-1682 | it refines accepting a connection |
| Server.StratumServer.TelemetryTick | src/stn_stratum_server.c:1513-1557 | the status built from the fields and the list walk is the specified one |
| Server.CheckAddress | src/stn_stratum_server.c:2088-2102 | an address is valid exactly with its prefix and 64 lower-case hexadecimal digits |
| Seqlock.ReadsAreWhole | src/stn_telemetry.c:219-264 | for every program of the writer and every interleaving, a read between whose loads fewer than 2^31 publications completed returns exactly what one whole number of publications made of the cells; successive reads never go back |
| Seqlock.OddNeverLeaves | src/stn_telemetry.c:249-264 | a read that met an odd counter starts over, however the writer goes on meanwhile and whatever the second variable holds |
| Seqlock.TornAtTheBound | src/stn_telemetry.c:249-264 | after exactly 2^31 publications a read can return a mixture that no whole number of publications leaves |
| Seqlock.RunKeeps | src/stn_telemetry.c:219-264 | every interleaving of single accesses keeps the cells equal to what the writer's program has made of them so far, and the reader's copy tied to them |
| Snapshot.ReadsShowTicks | src/stn_telemetry.c:219-264 | whatever statuses are ticked and however the worker interleaves, character by character, a read within the bound shows exactly the last status ticked completely, or none yet |
| Snapshot.StatusStored | src/stn_telemetry.c:219-247 | the stores of one publication, made over anything, decode to the status handed in, the host name up to truncation |
| Snapshot.TextStored | src/stn_telemetry.c:33-45 | a text copied over anything reads back up to truncation, whatever lies behind its terminator |
| Snapshot.ZeroDecodes | src/stn_telemetry.c:194-204 | the initial snapshot shows no status |
| Snapshot.TickIsProper | src/stn_stratum_server.c:1513-1557 | every status telemetry_tick builds from NUL-free hosts is one that can be shown |
| Telemetry.StatusCoherent | src/stn_stratum_server.c:1513-1557 | on every run the published rate is the saturated sum, miners is the client count, host and port are the active server's, no work means zero rate and all-zero ids, and work means ids and target that decode to the active template's own bytes |
| Telemetry.HexRoundTrip | src/stn_stratum_server.c:7-17 | a published id determines its bytes |
| Telemetry.HexText | src/stn_stratum_server.c:7-17 | the loop writes the specified text |
| StratumCore.SessionLife | src/stn_stratum.c:146-218 | over any life of a session, across any jobs, at most 64 submissions reach the Chain, with pairwise distinct nonces, each on a job whose base is the tip just read |
| StratumCore.SubmitAsks | src/stn_stratum.c:146-218 | exactly when the Chain is asked, and the status in every case |
| StratumCore.Preparations | src/stn_stratum.c:15-42 | what subscribing and registering demand and change |
| StratumCore.LogNeverClears | src/stn_stratum.c:146-218 | whatever follows, the log only grows, and once it is full no later turn reaches the Chain |
| StratumCore.RefreshAtomic | src/stn_stratum.c:81-132 | a refresh succeeds exactly on an OK answer whose block fits, then takes every field from that one answer; otherwise the job is untouched |
| StratumCore.Session.TrySubmit | src/stn_stratum.c:146-218 | the session object refines a submission, recording the nonce before the Chain is asked |
| StratumCore.Session.Seen | src/stn_stratum.c:182-188 | the scan finds a nonce exactly when it is logged |
| StratumCore.BuildAdapterPayload | src/stn_chain_rpc_adapter.c:153-199 | blocks too short or too long are refused, otherwise the adapter's buffer is the specified payload |
| ConfigGrammar.ParserExact | src/stn_chain_config.c:267-330 | a text parses to a list if and only if it is, up to the terminator, a rendering of a syntax tree meaning that list |
| ConfigGrammar.DocParses | src/stn_chain_config.c:267-330 | every well-formed text, with any white space, escapes, member order and trailing commas, parses to its meaning |
| ConfigGrammar.DocSound | src/stn_chain_config.c:267-330 | every accepted text is such a rendering |
| ConfigGrammar.EveryListWritable | src/stn_chain_config.c:267-330 | every non-empty list of non-empty, NUL-free hosts and ports 1..65535, laid out with any white space before every token, is a text that parses back to it, in order |
| ConfigGrammar.FileAccepted | src/stn_chain_config.c:267-330 | the file one would write by hand, spelled out, is accepted and means its list |
| ConfigGrammar.SpaceCodes | src/stn_chain_config.c:9-14 | white space, by character code |
| ConfigGrammar.EscapeCodes | src/stn_chain_config.c:49-63 | escapes, by character code |
| ConfigGrammar.PortParses | src/stn_chain_config.c:84-110 | a port is accepted if and only if its digit run denotes 1..65535 |
| ConfigParser.PassesAgree | src/stn_chain_config.c:16-82 | the first pass's length is the number of characters the second writes, and both end at the same quote |
| ConfigParser.ParseStringAt | src/stn_chain_config.c:16-82 | on success one new block is handed over, on failure none stays; the value is the parsed one, or memory ran out |
| ConfigParser.PortDigits | src/stn_chain_config.c:84-110 | the early exit refuses exactly the digit runs above 65535 |
| ConfigParser.ParseServerAt | src/stn_chain_config.c:122-193 | keys are freed on every path, and exactly the accepted host stays |
| ConfigParser.Config.Append | src/stn_chain_config.c:195-224 | the host changes owner, or nothing changes when the array cannot grow |
| ConfigParser.ParseServersAt | src/stn_chain_config.c:226-265 | on success and on failure every live new block belongs to the configuration |
| ConfigParser.ParseConfigAt | src/stn_chain_config.c:267-330 | the same for the document, and the configuration holds the parsed list |
| ConfigParser.Config.Close | src/stn_chain_config.c:419-433 | every owned block is freed, each exactly once |
| ConfigParser.Load | src/stn_chain_config.c:391-417 | a failed load leaves the caller's configuration and the heap as they were; a successful one frees the old list and owns exactly the new one; while memory lasts it succeeds exactly on texts that parse |

## Left out

- The Windows branch of the server and its transport: a near-duplicate with another receive loop and other clearing rules.
- Sockets, listeners, address lookup, timeouts, sleeping, signals and threads: their outcomes are inputs. A finite script of outcomes stands for the network, so an endless series of interruptions is not represented.
- Weak memory: the snapshot's accesses are interleaved one at a time, in sequentially consistent order; a flag, a number and a character are one access each.
- Fairness between miners and an idle callback during Chain calls: described in documents, absent from the code.
- Cryptographic claims about SHA-256, the Chain's own rules, and that one work id always names one block: the last is a hypothesis where it is needed.
- The telemetry HTTP exchange, its JSON text and its clients, service and client mode, the mining listener and the session acceptor: thin wrappers that would add only easy members.
- Logging, timestamps and number formatting.
- ServerModel.Handle: the handlers' own repeated tests of the frame header are not modelled, because they hold for every frame that is handed on (`Framing.NextFrameFacts`).
- RpcClient.Judge: the CAPACITY answer for a payload larger than the caller's buffer is not modelled, because a frame that long has already been refused.
- ClientList.Node: the fields of a session are one record in the node, assigned as a whole; the frame buffer is a sequence that grows instead of an array with a count.
- ConfigParser.Config.Append: the guard against a server count near the size of memory counts as an allocation that failed.
- ConfigParser.Load: opening and reading the file is one outcome, its text or nothing.
- StratumCore.Submit: the outcome of reading the Chain's tip is an input; rpc_tip, which takes it from a template answer, is not a member of its own.
