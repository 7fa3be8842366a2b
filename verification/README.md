# Verified model of the porcelain crack monitor

A Dafny 4.11 model of the parts of the monitor whose correctness is not visible in any one
function, with proofs about them. `dafny verify dfyconfig.toml` in this directory covers
everything.

The system receives laser scans and vibration records from sensors over TCP, passes them through a
pipeline of threads joined by lock-free queues, raises alerts, stores detections in a database,
forecasts crack growth with Paris's law, simulates particle repair, and draws cracks in a browser.

| files | subject |
|---|---|
| `QueueProtocol`, `QueueRuns`, `LockFreeQueue`, `Fifo` | the exchange-then-link queue: any number of producers and one consumer as a step system, runs of it, the object |
| `Stages`, `Pipeline`, `QueueNetwork` | what each stage makes of a message; the wired network of stage threads, over abstract queues and over the step systems of the real ones |
| `PipelineProgress`, `NetworkProgress`, `PipelineContents` | that both come to an end; what the messages at the end say about the scans at the beginning |
| `AlertMonitor` | the alert queue over a mutex and a condition variable |
| `ConnectionPool`, `BatchInsert` | the connection pool; the transactional batch insert over an abstract store |
| `ByteCodec`, `ProfinetCodec`, `LaserCodec`, `VibrationCodec`, `RecordLayout` | payload encoders and decoders; the formats byte by byte |
| `FrameSplitter`, `TcpSession`, `ScanDelivery` | cutting a byte stream into frames, for any format and for the session's own; which messages arrive |
| `GrowthSeries`, `RungeKutta`, `Predictions`, `ParisLaw`, `CrackGrowth`, `ClosedForms`, `FailureOrder` | the integration loops for any growth, one step of them, what a prediction reports, Paris's law with its corrections, the model, predictions that can be worked out by hand, which of two cracks is given the later failure |
| `Vectors`, `DemContacts`, `DemMotion`, `DemRuns`, `DemSimulation`, `DemMeasures` | the particle simulation; what its forces, volumes and masses amount to |
| `ColorScale`, `CrackGradient`, `CrackLines` | colour tables and merged line meshes of the viewer |
| `Wrappers`, `Common`, `Reals` | option and result types; records shared by the backend; absolute value, minimum, maximum |

Classes, loops and mutated fields of the source are classes, loops and mutated fields here; each
method is proved against a function or predicate on values, and the lemmas are about those.
Concurrent code is a step system with one action per atomic operation or critical section, and its
results hold for every run. Some long functions of the source are several methods here, one per
loop: the batch insert, the prediction, the laser decoder and encoder, and the mesh builder.

## What the proofs brought up

- The three ends of the TCP link disagree about the frame format. The splitter reads the length at
  byte 12 of a 16-byte header, the parser at byte 18 with the payload at byte 20, the simulator puts
  the payload at byte 24 after a length at byte 18. `TcpSession.WrittenPacketIsOneFrame` and
  `TcpSession.WrittenPayloadSurvives` say exactly when a written packet gets through. No scan but a
  blank one is received as itself (`ScanDelivery.WrittenScanSurvivesIff`), and that one only if the
  timestamp bits taken for the length are at least 69 and so many bytes arrive
  (`ScanDelivery.WrittenScanArrivesIff`); with headers on which all agree, every message is
  (`ScanDelivery.ReceiveAgreed`). The repository's own documentation says only that the header has
  16 bytes.
- With the default parameters, which nothing in the backend replaces, the residual-stress
  corrections turn the stress range negative and no crack grows (`CrackGrowth.DefaultsNeverGrow`).
  Sound cracks are then rated CRITICAL and failed ones NEGLIGIBLE (`CrackGrowth.DefaultRating`).
  `ParisLaw.GrowsIff` says when cracks grow, `Predictions.RatedCriticalIff` when one is rated
  CRITICAL, and `Predictions.FailedIsNotCritical` that a failed one never is, under any law.
  `ParisLaw.DocumentedRangeIff` says for which parameters the documented formula is the code's.
- A slope of the Runge-Kutta step already contains the time step and is multiplied by it again
  (`RungeKutta.ConstantLaw`, `RungeKutta.LinearLaw`). The model keeps this; order and convexity do not
  depend on it.
- A longer crack can be given a longer remaining life: the stall exit ends the shorter one's loop
  after an hour. `GrowthSeries.LifeAntitoneIff` is the exact condition,
  `FailureOrder.LongerCanLiveLonger` a family of inputs, and `FailureOrder.LongerLivesLongerExample`
  two predictions that differ so. With the default parameters it does not happen
  (`FailureOrder.DefaultLivesOrdered`). Failure times are ordered under the condition of
  `Predictions.FailureOrderIff`; with time steps of a second or more that divide the hour nothing but
  the stall exit misorders those of a record cut short and a complete one
  (`FailureOrder.FailureOrderOfModel`).
- In the particle simulation contact forces never reach a velocity: they are overwritten by the
  weight first. Particles fall freely until they leave the box, the forces recorded are their weights
  (`DemRuns.ForcesStay`), and energy is lost, since the fall uses half of the gravity that the
  potential energy counts (`DemRuns.EnergyIsLost`).
- `run` reports the steps asked for, also when it ends early. `DemRuns.StopsIff` says exactly when a
  test ends it, `DemRuns.ReportedStepsIff` when the report is right, and `DemRuns.ReportIsRightIff` when
  it is for generated particles that stay in the box, in terms of the time step and the steps asked
  for. `DemRuns.NoFreeEndsAt101` is a family of runs for which it is wrong.
- `stop` of the alert manager can miss the worker. With no enqueuer inside it ends the worker exactly
  when its `notify_all` does not fall between the worker's test and its going to sleep
  (`AlertMonitor.StopEndsTheWorkerIff`); `AlertMonitor.StopCanMissTheWorker` is a run in which it does.
  A worker that ends can leave alerts behind: `AlertMonitor.StopDeliversIff` says exactly when it
  does not, `AlertMonitor.StopCanDropAnAlert` is a run in which it does.
- The result of ROLLBACK is not read. `BatchInsert.LeftInTransactionIff` says exactly when a connection
  goes back to the pool inside a transaction; a batch that was reported as failed can then be
  committed by the next one (`BatchInsert.RejectedBatchIsCommitted`). Acquire and release both use the
  back of the pool: one unusable connection there fails every later batch of a single thread
  (`BatchInsert.StoreInTurn`).
- A crack count of 2^31 or more reads as negative, and such a record is accepted without cracks
  (`LaserCodec.CrackCountAgreesIff`).
- At a maximum depth of zero the colour table gives one colour for all depths, and none at zero
  (`CrackGradient.CrackGradient.SampleColor`).

## Model

| member | source | states |
|---|---|---|
| QueueProtocol.InitInv | backend/include/lockfree_queue.h:15-19 | A new queue, with its one dummy node, meets the invariant of the step system. |
| QueueProtocol.StepKeepsInv | backend/include/lockfree_queue.h:31-51 | Every atomic step of any producer and of the consumer keeps the invariant, addresses being reused after a delete: no unallocated node is touched, every allocated node is a producer's, on the chain or about to be deleted, the chain is linked except where an exchanged push has not stored its link, and values stand in exchange order. |
| QueueRuns.RunKeepsInv | backend/include/lockfree_queue.h:31-51 | The invariant holds in every state of every interleaving. |
| QueueRuns.RunFollowsCalls | backend/include/lockfree_queue.h:31-35 | The recorded push order is the order of the tail exchanges and the values are the arguments of the calls, both read off the actions alone. |
| QueueRuns.DeliveryIsPrefixOfExchanges | backend/include/lockfree_queue.h:31-51 | In every interleaving nothing freed is dereferenced, and the values delivered are a prefix of the pushed arguments in tail-exchange order. |
| QueueRuns.FalseVerdict | backend/include/lockfree_queue.h:37-43 | `try_pop` finds no successor exactly when everything exchanged has been delivered or the push next in order has exchanged the tail but not stored its link. |
| QueueRuns.FalseMeansDrainedWhenQuiet | backend/include/lockfree_queue.h:37-43 | With no push in flight `try_pop` fails exactly when all pushed values are delivered. |
| QueueRuns.PopsDeliver | backend/include/lockfree_queue.h:37-51 | With no push in flight any number of pops up to the values remaining succeeds. |
| QueueRuns.DrainTakesExactlyTheRemaining | backend/include/lockfree_queue.h:37-51 | They deliver the remaining values in order, and the next pop returns false exactly when none is left. |
| QueueRuns.StepRefinesFifo | backend/include/lockfree_queue.h:31-51 | Each atomic step is a push (at the exchange), a pop of the oldest value (at the move) or invisible to an abstract FIFO. |
| QueueRuns.WalkFreesAll | backend/include/lockfree_queue.h:21-26 | From a linked chain the destructor's walk ends after one deletion per node and leaves nothing allocated. |
| QueueRuns.DestructionDeletesEachNodeOnce | backend/include/lockfree_queue.h:15-51 | Over any run that ends with no call in progress, every node ever allocated, the first dummy included, is deleted exactly once, and the destructor loop stops. |
| LockFreeQueue.PushRun | backend/include/lockfree_queue.h:31-35 | The three steps of an uninterrupted push, and what they leave in memory. |
| LockFreeQueue.TakeRun | backend/include/lockfree_queue.h:44-48 | The steps of a successful pop, and what they leave in memory. |
| LockFreeQueue.LockFreeQueue.constructor | backend/include/lockfree_queue.h:15-19 | The object starts as the protocol's initial state. |
| LockFreeQueue.LockFreeQueue.Push | backend/include/lockfree_queue.h:31-35 | The method is a run of the protocol; it appends the value and delivers nothing. |
| LockFreeQueue.LockFreeQueue.TryPop | backend/include/lockfree_queue.h:37-51 | Returns the oldest undelivered value, or nothing exactly when all are delivered, after any number of spurious failures of the weak compare-exchange. |
| LockFreeQueue.LockFreeQueue.Destroy | backend/include/lockfree_queue.h:21-26 | The loop stops, frees every cell, and all nodes ever allocated have been deleted once. |
| Stages.FanOut.Process | backend/include/modules/fanout_module.h:22-32 | Every wired queue receives the message as many times as it is wired, also when one queue is wired twice, and nothing else. |
| Stages.RouterProcess | backend/include/modules/crack_router_module.h:21-38 | Pushes nothing for a scan without cracks; otherwise one detection, which repeats the scan, its porcelain, its cracks in order and the points of each. |
| Stages.FatigueProcess | backend/include/modules/fatigue_predictor_module.h:29-57 | Pushes as many messages as there are cracks; the i-th is about the i-th crack, with its id, the porcelain of the detection, and the forecast that the model makes for this crack. |
| Stages.DemProcess | backend/include/modules/dem_simulator_module.h:33-61 | Pushes as many messages as there are cracks; the i-th is about the i-th crack, with its id, the porcelain, the default material and the outcome of the i-th simulation. |
| Pipeline.WorkIsPrefix | backend/include/module_base.h:54-71 | What an expanding stage has pushed is a prefix of the expansion of its input, and all of it once the input is used up. |
| Pipeline.StepKeepsInv | backend/src/main.cpp:87-118 | Every step of every stage thread keeps the network invariant. |
| Pipeline.RunKeepsInv | backend/src/main.cpp:87-118 | The network invariant holds in every reachable state. |
| Pipeline.RunConsumesInput | backend/src/main.cpp:96-97 | Only the parser feeds the first queue. |
| Pipeline.HistoriesAreFunctionsOfInput | backend/src/main.cpp:87-118 | Under every schedule each wired queue has carried a prefix of a fixed function of the laser input, the second branch of a fan-out lags by at most one message, and at quiescence the prefixes are the whole. |
| PipelineProgress.StepLowersRank | backend/src/main.cpp:87-118 | Every step of a stage thread does exactly one unit of the work that is left, counted over all queues and stages. |
| PipelineProgress.NoWorkIffDone | backend/src/main.cpp:87-118 | No work is left exactly when every queue is empty and every stage waits. |
| PipelineProgress.SomebodyCanStep | backend/src/main.cpp:87-118 | Until then some stage can step. |
| PipelineProgress.StagesFinishTheInput | backend/src/main.cpp:87-118 | So under any schedule the stages never make more steps than the work in the parser's input, some step is possible until they have made as many, and when they have, the network is quiescent and every history is complete. |
| QueueNetwork.StepSimulates | backend/src/main.cpp:87-118 | Each step of the network wired with the step systems of its eight queues, a stage taking one queue step at a time, is a step of the network of abstract queues or cannot be seen there. |
| QueueNetwork.RunStaysJoined | backend/src/main.cpp:87-118 | In every reachable state each queue meets its invariant, whoever has prepared a node has prepared the value its stage wants to push next, and a pop that has not moved its value was called by a polling stage. |
| QueueNetwork.RunFollowsParser | backend/src/main.cpp:96-97 | What the first queue has carried are the arguments of the parser's push calls in the order of their tail exchanges, read off the steps alone. |
| QueueNetwork.QueuesCarryFunctionsOfInput | backend/src/main.cpp:87-118 | Under every interleaving of all queue and stage steps, pushes exchanged but not linked included: no freed node is touched in any of the eight queues, each has carried a prefix of a fixed function of the parser's pushes, the alert module has received prefixes of these, a second branch lags by at most one message, and at quiescence nothing is missing. |
| NetworkProgress.UsefulLowersBound | backend/src/main.cpp:87-118 | Over the step systems of the queues: every step but a poll of an empty queue, a read of a link that is not stored yet and a failed compare-exchange brings the end of the work closer. |
| NetworkProgress.SomebodyCanHelp | backend/src/main.cpp:87-118 | Once the parser's calls have returned, such a step is possible as long as anything is left to do. |
| NetworkProgress.HelpfulRunsEnd | backend/src/main.cpp:87-118 | However they are chosen, there are at most as many of them as the bound says. |
| NetworkProgress.CanBeFinished | backend/src/main.cpp:87-118 | From every such state there is a schedule that does all the work. |
| NetworkProgress.NetworkFinishes | backend/src/main.cpp:87-118 | After any run in which the parser's calls have returned, further steps bring to the alert module all that the parser has pushed, all forecasts and a repair message for every crack, and nothing else. |
| PipelineContents.FunctionsOfInput | backend/include/modules/crack_router_module.h:21-38 | The fixed functions of the input in the fields of the messages: detections repeat the scans that report cracks, and forecasts and repairs are for the cracks of these scans, one each, in order, with the right ids. |
| PipelineContents.MessagesFollowScans | backend/src/main.cpp:87-118 | In every reachable state, under any interleaving of all queue steps: every forecast passed on or received is the model's for the crack its own message is about, every repair is of its own crack with the default material, and these cracks are the first ones, in order, of all cracks of the scans pushed; so are the detections. |
| PipelineContents.EveryCrackIsAnswered | backend/src/main.cpp:87-118 | Once the parser's calls have returned, further steps bring the alert module one forecast and one repair for every crack of every scan that reports one. |
| AlertMonitor.StepKeepsMutex | backend/src/alert_manager.cpp:44-50 | The mutex has at most one owner, and exactly the threads in a critical section own it. |
| AlertMonitor.StepKeepsWakeup | backend/src/alert_manager.cpp:194-197 | No step leaves the worker asleep over a non-empty queue unless a thread is about to notify. |
| AlertMonitor.RunKeepsInv | backend/src/alert_manager.cpp:194-224 | The monitor invariant holds in every reachable state. |
| AlertMonitor.RunStoresArguments | backend/src/alert_manager.cpp:44-48 | What was enqueued are the arguments of the calls in the order of their stores. |
| AlertMonitor.NothingLostNoWakeupLost | backend/src/alert_manager.cpp:194-224 | In every reachable state the alerts delivered, the one in hand and the queue are the alerts enqueued, in order; a sleeping worker with a non-empty queue implies a thread between unlock and `notify_one`. |
| AlertMonitor.WorkerDrains | backend/src/alert_manager.cpp:194-224 | With no enqueuer inside, the worker alone delivers everything, in a bounded number of steps. |
| AlertMonitor.StopMissedOnlyInTheWindow | backend/src/alert_manager.cpp:36-42 | In any run, if `stop` has notified and the worker is parked, the `notify_all` fell between the worker's test and its going to sleep. |
| AlertMonitor.ParkedIffMissed | backend/src/alert_manager.cpp:36-42 | As long as nothing else wakes the worker, it is parked after `stop` exactly when the `notify_all` fell in that window. |
| AlertMonitor.EndsIffNotParked | backend/src/alert_manager.cpp:194-224 | After `stop`, no thread being inside `enqueue_alert`, the worker alone runs to its end exactly when it is not parked. |
| AlertMonitor.StopEndsTheWorkerIff | backend/src/alert_manager.cpp:36-42 | So `stop` ends the worker exactly when at its `notify_all` the worker is not between its test and its going to sleep. |
| AlertMonitor.StopCanMissTheWorker | backend/src/alert_manager.cpp:36-42 | A run in which that happens: afterwards neither the worker nor `stop` can move. |
| AlertMonitor.EndsDeliveredIff | backend/src/alert_manager.cpp:194-224 | After `stop` the worker alone comes to its end with every alert delivered exactly when it is not parked, and is not at the loop test or finished with alerts in the queue. |
| AlertMonitor.StopDeliversIff | backend/src/alert_manager.cpp:36-42 | So `stop` ends the worker with every alert delivered exactly when at its `notify_all` the worker is neither going to sleep nor between two rounds, or at its end, over a queue that is not empty. |
| AlertMonitor.StopCanDropAnAlert | backend/src/alert_manager.cpp:194-224 | A run in which an alert enqueued before `stop` is never delivered, although the worker ends. |
| ConnectionPool.StepKeepsPartition | backend/src/database.cpp:72-84 | Every connection stays either available, once, or held by exactly one client. |
| ConnectionPool.StepKeepsWakeup | backend/src/database.cpp:72-84 | While a client sleeps there are at least as many woken clients as idle connections. |
| ConnectionPool.PoolIsConserved | backend/src/database.cpp:72-84 | Over any run of any clients available plus held connections are the pool, none is held twice, and no wakeup is lost. |
| ConnectionPool.LastReleasedFirstTaken | backend/src/database.cpp:72-84 | The connection released last is the one taken next, by whichever client comes first. |
| ConnectionPool.FrontTakenLast | backend/src/database.cpp:72-84 | The connection at the front is taken exactly when it is the only one available. |
| BatchInsert.Connection.Begin | backend/src/database.cpp:32-38 | Succeeds exactly when the connection is alive, its transaction is not aborted, and the statement succeeds; a transaction that is open already is kept with its rows. |
| BatchInsert.Connection.Commit | backend/src/database.cpp:40-46 | Publishes all staged rows together, or nothing. |
| BatchInsert.Connection.Rollback | backend/src/database.cpp:48-54 | Publishes nothing; ends the transaction if it succeeds or breaks the connection, and leaves it open if it is refused or does not reach the server. Nobody reads which. |
| BatchInsert.InsertPoints | backend/src/database.cpp:889-919 | Stages, after what was staged before, the j-th point in the j-th row under the crack's id, for all points, or stops at the first failure. |
| BatchInsert.InsertCracks | backend/src/database.cpp:851-920 | Stages min(the cracks, the point lists) cracks with their points under increasing ids, exactly when every statement succeeds. |
| BatchInsert.CrackRowsCount | backend/src/database.cpp:851-920 | The rows staged for the cracks are as many as the statements. |
| BatchInsert.CrackRowsAreBlocks | backend/src/database.cpp:851-920 | What the rows hold, by position: for every crack that has a point list its own row and then, under the same id, its points, each in its place. |
| BatchInsert.NoOtherRows | backend/src/database.cpp:851-920 | Every position among the rows is in one of these blocks. |
| BatchInsert.LeftInTransactionIff | backend/src/database.cpp:800-931 | A batch returns its connection inside a transaction exactly when it got it so and BEGIN neither succeeded nor broke it, or when after BEGIN the first statement that does not succeed leaves the transaction open (not a lost connection, not a refused COMMIT) and the ROLLBACK after it does too. |
| BatchInsert.RunBatch | backend/src/database.cpp:800-931 | All or nothing, whether a statement fails by an error, by not reaching the server or by a lost connection, ROLLBACK included, and in whatever state the connection comes: true exactly when it was usable and every statement succeeded, and then what is committed, together, after the rows an earlier batch has left, is one laser row and the blocks of the cracks, under increasing ids, and no other row; otherwise only others have committed anything. The number of statements sent and the state in which the connection goes back are exact. |
| BatchInsert.RejectedBatchIsCommitted | backend/src/database.cpp:922-927 | A batch that was reported as failed is committed by the next one, when neither its COMMIT nor its ROLLBACK reached the server. |
| BatchInsert.DatabaseManager.BatchInsertCrackDetections | backend/src/database.cpp:794-931 | The same for the connection at the back of the pool, in any state; every path puts it back. |
| BatchInsert.StoreInTurn | backend/src/database.cpp:72-84 | Any number of batches one after the other: if the connection at the back is broken or in an aborted transaction, every one of them fails, whatever the other connections are; each sends one statement at most, and only other clients commit anything. |
| ByteCodec.NumOfLE | simulator/main.cpp:359-372 | Reading the little-endian bytes of a number gives the number. |
| ByteCodec.LEOfNum | backend/src/profinet_parser.cpp:7-28 | Writing the number read from bytes gives the bytes. |
| ByteCodec.ReadIff | backend/src/profinet_parser.cpp:7-28 | A read yields a value exactly when its bytes stand there; otherwise it is out of range. |
| ByteCodec.ReadUnsigned | backend/src/profinet_parser.cpp:7-28 | The reading loop. |
| ByteCodec.Append | simulator/main.cpp:359-372 | The appending loops. |
| ProfinetCodec.FieldsIff | backend/src/profinet_parser.cpp:109-123 | A run of fields reads as given values exactly when they fit their widths and their encoding stands there. |
| ProfinetCodec.ListIff | backend/src/profinet_parser.cpp:125-152 | The same for a list of records, each starting where the last one ends. |
| ProfinetCodec.PointsIff | backend/src/profinet_parser.cpp:134-149 | The points of a crack. |
| ProfinetCodec.ReadFields | backend/src/profinet_parser.cpp:109-123 | Reading fields one after the other, stopping at the first that is out of range. |
| ProfinetCodec.AppendFields | simulator/main.cpp:217-236 | Appending fields one after the other. |
| LaserCodec.CracksIff | backend/src/profinet_parser.cpp:125-152 | Cracks decode to given cracks exactly when their encoding stands there and every point count is below 2^32. |
| LaserCodec.HeadIff | backend/src/profinet_parser.cpp:109-123 | The header fields. |
| LaserCodec.JsonRoundTrip | backend/src/profinet_parser.cpp:154-159 | The JSON tail; an empty text is not handed to the JSON parser. |
| LaserCodec.ReadPoints | backend/src/profinet_parser.cpp:134-149 | The inner loop, for any declared count. |
| LaserCodec.ReadCracks | backend/src/profinet_parser.cpp:125-152 | The outer loop; a count of 2^31 or more is negative and reads nothing. |
| LaserCodec.ParseLaserData | backend/src/profinet_parser.cpp:105-162 | `parse_laser_data` computes the decoder function, errors included, and stops on arbitrary bytes. |
| LaserCodec.AppendCracks | simulator/main.cpp:238-268 | The nested encoding loops. |
| LaserCodec.BuildLaserPayload | simulator/main.cpp:207-279 | `build_laser_payload` computes the encoder function. |
| LaserCodec.LaserRoundTrip | backend/src/profinet_parser.cpp:105-162 | Decoding an encoded scan followed by any bytes gives the scan back. |
| LaserCodec.AcceptedLaserReencodes | backend/src/profinet_parser.cpp:105-162 | For arbitrary bytes: what is accepted is at least 65 plus 28 + 72 * points per crack long, and re-encoding the fields reproduces the bytes before the JSON tail exactly when the flag byte is 0 or 1 and the crack count is below 2^31. |
| LaserCodec.CrackCountAgreesIff | backend/src/profinet_parser.cpp:123-125 | An accepted record holds as many cracks as it counts exactly when the count read is below 2^31; otherwise it holds none and counts a negative number. |
| RecordLayout.LaserFieldsInPlace | backend/src/profinet_parser.cpp:105-162 | For arbitrary bytes: every field of an accepted record is the number at its own byte offset, lowest byte first, ids in two's complement; crack after crack stands from byte 61 on, 28 bytes and 72 for each point, with every measure and coordinate at its offset; and the text is the one behind them. |
| RecordLayout.LowestFirst | backend/src/profinet_parser.cpp:7-28 | What the lowest byte first means for two and four bytes. |
| VibrationCodec.AmplitudesIff | backend/src/profinet_parser.cpp:181-185 | Amplitudes decode exactly when their encoding stands there. |
| VibrationCodec.ParseVibrationData | backend/src/profinet_parser.cpp:164-195 | `parse_vibration_data` computes the decoder function. |
| VibrationCodec.BuildVibrationPayload | simulator/main.cpp:281-337 | `build_vibration_payload` computes the encoder function. |
| VibrationCodec.VibrationRoundTrip | backend/src/profinet_parser.cpp:164-195 | Decoding an encoded record followed by any bytes gives it back. |
| VibrationCodec.AcceptedVibrationReencodes | backend/src/profinet_parser.cpp:164-195 | For arbitrary bytes: what is accepted holds its declared amplitudes, and re-encoding reproduces the bytes consumed. |
| RecordLayout.VibrationFieldsInPlace | backend/src/profinet_parser.cpp:164-195 | The same for an accepted vibration record. |
| FrameSplitter.SplitAppend | backend/src/tcp_server.cpp:27-66 | Splitting what has arrived, then the rest with what arrives later, is splitting it all; for any header size and length offset. |
| FrameSplitter.ChunksDoNotMatter | backend/src/tcp_server.cpp:15-20 | For any chunks the frames and the rest are those of the one-shot split of the whole stream. |
| FrameSplitter.NothingLost | backend/src/tcp_server.cpp:27-66 | Frames and rest together are the stream. |
| FrameSplitter.ResidueBound | backend/src/tcp_server.cpp:34-36 | The rest is shorter than header plus 65535. |
| FrameSplitter.OneFrame | backend/src/tcp_server.cpp:28-36 | A packet is split as exactly one frame if and only if its length field says so. |
| FrameSplitter.BadFrameIsSkipped | backend/src/tcp_server.cpp:38-65 | A frame whose decoding throws consumes exactly its own bytes; everything else is seen as though it had not been in the stream. |
| FrameSplitter.AgreementDelivers | backend/src/tcp_server.cpp:27-66 | Were writer, splitter and parser to agree on header size and length offset, all payloads would come out of any chunking, in order. |
| TcpSession.Parse | backend/src/profinet_parser.cpp:71-103 | `parse`, with its three errors. |
| TcpSession.HandleFrame | backend/src/tcp_server.cpp:38-63 | The callback, then the acknowledgement with the frame's cycle counter; an exception on the way leaves nothing. |
| TcpSession.AnsweredIff | backend/src/tcp_server.cpp:38-63 | A frame leaves events exactly when it holds the payload its length field says and this decodes as its first two bytes demand, if they are 0x8001 or 0x8002; the acknowledgement comes last, with bytes 4 to 8, and just the one callback before it. |
| TcpSession.Session.TryParseFrames | backend/src/tcp_server.cpp:27-73 | The buffer becomes the rest of the split and the events those of its frames; the reset at 4 MiB never happens. |
| TcpSession.Session.DoRead | backend/src/tcp_server.cpp:14-21 | One completed read. |
| TcpSession.Session.Run | backend/src/tcp_server.cpp:11-25 | A whole connection, whatever the reads deliver: the events and the rest of the one-shot split, the rest below 65551 bytes. |
| TcpSession.BuildProfinetPacket | simulator/main.cpp:339-357 | The packet writer computes the packet function. |
| TcpSession.WrittenPacketIsOneFrame | simulator/main.cpp:339-357 | A written packet is split as one frame exactly when bits 32 to 47 of its timestamp equal the payload length plus 8: the splitter reads its length there. |
| TcpSession.WrittenPacketParses | simulator/main.cpp:339-357 | The parser sees the four padding bytes and then the payload without its end. |
| TcpSession.WrittenPayloadSurvives | simulator/main.cpp:339-357 | So a payload survives writer and parser exactly when it is shorter than 65536 bytes and all zeros. |
| TcpSession.WrittenPacketAcknowledged | backend/src/tcp_server.cpp:58-59 | A written packet that is handled at all is acknowledged last, with its own cycle counter. |
| ScanDelivery.ReceiveAgreed | backend/src/tcp_server.cpp:11-73 | With headers in which splitter and parser both find the lengths they look for, a session that reads the packets of any scans and vibration records, cut into reads in any way, sees exactly these, each with its acknowledgement, in order, and keeps nothing. |
| ScanDelivery.WrittenScanSurvivesIff | simulator/main.cpp:339-357 | As the code stands a scan that is written is decoded as itself exactly when it is blank: all numbers zero, no crack, no text. |
| ScanDelivery.FrameOfWritten | backend/src/profinet_parser.cpp:71-103 | A frame that begins as a written packet does, wherever it ends, parses to the four padding bytes and the payload without its end if it is long enough for these, and to an error otherwise. |
| ScanDelivery.WrittenScanArrivesIff | simulator/main.cpp:339-357 | And a session that is at a frame boundary sees the scan written next as itself exactly when the scan is blank, bits 32 to 47 of the packet's timestamp are at least 69, and 16 bytes more than these bits say have arrived from there on, also when the frame ends inside the packet or runs on into what follows. |
| RungeKutta.StagesIncrease | backend/algorithms/crack_propagation.cpp:189-195 | k1 <= k2 <= k3 <= k4, and the increment lies between k1 * dt and k4 * dt. |
| RungeKutta.IncrementMonotone | backend/algorithms/crack_propagation.cpp:189-195 | A longer crack grows by no less in one step. |
| RungeKutta.StepperGrows | backend/algorithms/crack_propagation.cpp:189-195 | One step of any growth law only lengthens, and preserves the order of two cracks and of their growth. |
| RungeKutta.ConstantLaw | backend/algorithms/crack_propagation.cpp:189-195 | Under a constant growth rate r a step adds r * dt * dt, which is the growth over dt exactly when r is 0 or dt is 0 or 1. |
| RungeKutta.LinearLaw | backend/algorithms/crack_propagation.cpp:189-195 | Under a law proportional to the length a step adds a * (z + z^2/2 + z^3/6 + z^4/24), where z is the rate times dt squared; which fixes all four slopes and their weights. |
| GrowthSeries.SeriesFollowsOrbit | backend/algorithms/crack_propagation.cpp:171-205 | The recorded lengths are those of the run without a critical length, and the record is shorter than the steps plus one exactly when that run reaches the critical length in time. |
| GrowthSeries.SeriesShape | backend/algorithms/crack_propagation.cpp:171-205 | Recorded lengths are nondecreasing and convex, and below critical after the first. |
| GrowthSeries.ConvexIff | backend/algorithms/crack_propagation.cpp:189-195 | Convex means of the record that what is added at one sample is no more than what is added at any later one. |
| GrowthSeries.SeriesOrdered | backend/algorithms/crack_propagation.cpp:171-205 | Two runs with ordered initial lengths stay ordered at every common sample, and the longer crack's record ends no later. |
| GrowthSeries.SamplesShape | backend/algorithms/crack_propagation.cpp:197-204 | Depth and width follow 0.4 and 0.25 of the growth, so they never decrease either. |
| GrowthSeries.Life | backend/algorithms/crack_propagation.cpp:132-149 | The life loop ends within 27778 hours. |
| GrowthSeries.LifeIsFirstCrossing | backend/algorithms/crack_propagation.cpp:140-146 | A crack that does not stall lives until the first hour in which it is at least critical, or through the horizon. |
| GrowthSeries.LifeOutlastsIff | backend/algorithms/crack_propagation.cpp:140-146 | The life of a crack that does not stall reaches a given time exactly when the crack, growing by the hour, is below critical and within the horizon in every hour before. |
| GrowthSeries.LifeCoversRun | backend/algorithms/crack_propagation.cpp:132-205 | If the time steps of an hour take a crack at least as far as an hourly step, a crack that does not stall lives through all hours in which its run stays below critical. |
| GrowthSeries.LifeAntitoneIff | backend/algorithms/crack_propagation.cpp:140-146 | A longer crack lives no longer exactly when the shorter one's first hourly step is at least 1e-15, or the longer one is not below critical, or its first step is below 1e-15 or reaches critical. |
| GrowthSeries.StallsOnlyAtFirst | backend/algorithms/crack_propagation.cpp:145 | The stall exit can fire only in the first hour. |
| ParisLaw.DriveIsSpan | backend/algorithms/crack_propagation.cpp:9-30 | The load that drives growth is the geometric factor times a corrected range, given in the parameters: the applied range plus the residual stress times the difference of two saturations. |
| ParisLaw.OffsetIsParallel | backend/algorithms/crack_propagation.cpp:24-38 | Residual stress shifts an applied stress by four tenths of its component along the crack. |
| ParisLaw.IntensityInParts | backend/algorithms/crack_propagation.cpp:9-22 | A corrected stress intensity is geometric factor and root times the stress, a saturating part of the residual stresses, and three tenths of the one along the crack. |
| ParisLaw.CriticalIff | backend/algorithms/crack_propagation.cpp:114-117 | A length is critical exactly when at the highest applied stress its stress intensity reaches the toughness; without a load none is. |
| ParisLaw.SpanUnchangedIff | backend/algorithms/crack_propagation.cpp:9-22 | The corrections leave the applied range as it is exactly when they are off, the calibration factor is zero, the residual stresses cancel, or the range is zero. |
| ParisLaw.DocumentedRangeIff | backend/algorithms/crack_propagation.cpp:9-30 | The documented stress-intensity range is what the code computes exactly under these conditions on the parameters, or when the geometric factor or the length is zero. |
| ParisLaw.GrowsIff | backend/algorithms/crack_propagation.cpp:109-130 | With a positive coefficient and frequency a crack of positive length grows exactly when geometric factor times corrected range is positive. |
| ParisLaw.ParisMonotone | backend/algorithms/crack_propagation.cpp:109-130 | The growth rate is never negative and never smaller for a longer crack, whatever the stresses. |
| ParisLaw.ParisIsLaw | backend/algorithms/crack_propagation.cpp:109-130 | So it is a growth law in the sense of the results above. |
| CrackGrowth.CrackPropagationModel.EstimateRemainingLife | backend/algorithms/crack_propagation.cpp:132-149 | The loop computes the life function. |
| CrackGrowth.CrackPropagationModel.WeightedStep | backend/algorithms/crack_propagation.cpp:189-194 | The four slopes and their weighted mean compute the step of which `RungeKutta.LinearLaw` and the results on order and growth are proved. |
| CrackGrowth.CrackPropagationModel.Integrate | backend/algorithms/crack_propagation.cpp:171-205 | The time loop records the series and the time of failure. |
| CrackGrowth.CrackPropagationModel.Predict | backend/algorithms/crack_propagation.cpp:151-233 | For any number of time steps, zero included, and any stresses, zero included: all six series, the 720-hour sample, failure time, risk and confidence; only the stored initial length changes, and the result carries the previous one. |
| CrackGrowth.ModelIsNatural | backend/algorithms/crack_propagation.cpp:109-149 | So the results about natural growth hold of every prediction and every life of the model. |
| Predictions.PredictionShape | backend/algorithms/crack_propagation.cpp:171-216 | The shape results for a prediction; the 720-hour sample never shows a failed crack that was sound at first. |
| Predictions.CutShortIffCritical | backend/algorithms/crack_propagation.cpp:200-203 | A prediction is cut short exactly when the critical length is reached, and the failure time is then the last recorded time. |
| Predictions.LongerCrackFailsNoLater | backend/algorithms/crack_propagation.cpp:151-233 | Two predictions with ordered initial lengths are ordered sample by sample and in length of record; in failure time too when the shorter crack's record is cut short. |
| Predictions.FailureOrderIff | backend/algorithms/crack_propagation.cpp:218-220 | When the shorter crack's record is complete, the failure times are ordered exactly when: the longer one's record being cut short, its last time is at most one hour if the shorter one stalls, and otherwise the shorter one, growing by the hour, is below critical in every hour before it; both being complete, the condition on the stall exit holds. |
| Predictions.FailureOrderByStall | backend/algorithms/crack_propagation.cpp:218-220 | In the first case, if the time steps of an hour take a crack at least as far as an hourly step, the failure times are ordered exactly when the shorter crack does not stall or the longer one's last time is at most one hour. |
| FailureOrder.StepperCovers | backend/algorithms/crack_propagation.cpp:140-195 | Time steps of at least a second that divide the hour do take a crack as far: the growth over a step contains the time step twice. |
| FailureOrder.FailureOrderOfModel | backend/algorithms/crack_propagation.cpp:151-233 | So in predictions of the model with such time steps, for any parameters, of which only the longer crack's is cut short, the longer crack is given the later failure exactly when the shorter one stalls and the longer one is last recorded after the first hour. |
| Predictions.RatedCriticalIff | backend/algorithms/crack_propagation.cpp:254-273 | A crack is rated CRITICAL exactly when its run reaches the critical length within the horizon, not in the first step, and is last recorded before 720 hours; or, if it does not reach it, its life is between 1 and 719 hours. |
| Predictions.FailedIsNotCritical | backend/algorithms/crack_propagation.cpp:254-273 | A crack that is at or above critical is never rated CRITICAL, whatever the growth law. |
| Predictions.RatedByLastRate | backend/algorithms/crack_propagation.cpp:254-273 | A rating other than CRITICAL is at least HIGH, MEDIUM or LOW exactly when the last recorded rate is above 1e-8, 1e-10 or 1e-12. |
| Predictions.LongerRatedNoLower | backend/algorithms/crack_propagation.cpp:254-273 | Of two cracks with complete records, neither rated CRITICAL, the longer is rated no lower. |
| Predictions.ConfidenceIff | backend/algorithms/crack_propagation.cpp:224-230 | The confidence is 0.9 exactly for a life below the horizon, and otherwise 0.8 exactly for a crack more than half the critical length. |
| ClosedForms.LongerRatedNoLowerByModel | backend/algorithms/crack_propagation.cpp:254-273 | And so it is for predictions of the model, whatever its parameters. |
| ClosedForms.LengthsAreGeometric | backend/algorithms/crack_propagation.cpp:171-205 | With exponent two and no corrections the i-th recorded length is the measured one times the i-th power of 1 + z + z^2/2 + z^3/6 + z^4/24, z being C (Y (maximum - minimum stress))^2 pi f dt^2. |
| ClosedForms.RatesAreSquares | backend/algorithms/crack_propagation.cpp:171-187 | There the square of the recorded range is (Y (maximum - minimum stress))^2 pi times the length, and the rate is C times it. |
| ClosedForms.LifeIsCompounded | backend/algorithms/crack_propagation.cpp:132-149 | There the life of a sound crack is one hour if it grows by less than 1e-15 in the first one; else it is the first hour at whose start a (1 + 3600 r)^n times pi and the squared load is not below the squared toughness, or 27778 hours. |
| ClosedForms.SamplesInNumbers | backend/algorithms/crack_propagation.cpp:171-205 | For any parameters: sample i is taken at i / steps of the horizon; length, depth and width start at what was measured, or 0.001, 0.0005 and 0.0001, and depth and width grow by 0.4 and 0.25 of what the length grows. |
| ClosedForms.ReportedAt720 | backend/algorithms/crack_propagation.cpp:207-216 | The three numbers reported for 720 hours are those of the last sample recorded by then, also when the record is cut short. |
| CrackGrowth.SampleIsLastBy720 | backend/algorithms/crack_propagation.cpp:207-216 | The 720-hour sample is the last one taken by then. |
| Predictions.StandstillRating | backend/algorithms/crack_propagation.cpp:254-273 | A crack at which nothing grows keeps its length; while sound it is given one hour and rated CRITICAL, once failed it is rated NEGLIGIBLE. |
| ParisLaw.DefaultDriveIsNegative | backend/include/crack_propagation.h:23-38 | With the default parameters the corrected stress range is negative. |
| CrackGrowth.DefaultsNeverGrow | backend/include/crack_propagation.h:23-38 | So with them no crack of any length grows. |
| CrackGrowth.DefaultRating | backend/include/crack_propagation.h:23-38 | Every sound crack is rated CRITICAL and every failed one NEGLIGIBLE. |
| FailureOrder.DefaultLivesOrdered | backend/include/crack_propagation.h:23-38 | With the default parameters a longer crack never lives longer. |
| FailureOrder.LongerCanLiveLonger | backend/algorithms/crack_propagation.cpp:132-149 | For any two lengths that the power law tells apart, any horizon and any number of time steps there are parameters, without corrections, under which the longer crack is given the longer life, the critical length being the model's own, and does not reach that length in its run. |
| FailureOrder.LongerPredictedToLast | backend/algorithms/crack_propagation.cpp:151-233 | Under these parameters any two predictions give the longer crack the later failure time. |
| FailureOrder.LongerLivesLongerExample | backend/algorithms/crack_propagation.cpp:151-233 | With the square root, the square and the cube as they are: parameters for which predictions do so for cracks of length 1 and 2. |
| DemContacts.ReactionIsOpposite | backend/algorithms/dem_simulation.cpp:193-214 | Two particles touch, and push each other by opposite forces, whichever is taken first. |
| DemContacts.TouchingPairsExact | backend/algorithms/dem_simulation.cpp:231-238 | The pairs found are exactly the overlapping, non-coincident ones, each once, in lexicographic order. |
| DemContacts.ExchangeConserves | backend/algorithms/dem_simulation.cpp:213-214 | One contact changes neither total force nor total torque. |
| DemContacts.ExchangesConserve | backend/algorithms/dem_simulation.cpp:227-238 | All contacts together change neither. |
| DemContacts.OthersUntouched | backend/algorithms/dem_simulation.cpp:227-238 | A particle in none of the pairs keeps its force. |
| DemMeasures.TouchingIff | backend/algorithms/dem_simulation.cpp:193-199 | Two particles touch exactly when their squared distance is below the square of the sum of the radii and above 1e-30. |
| DemMeasures.ContactMeasures | backend/algorithms/dem_simulation.cpp:199-224 | A contact in terms of the distance: overlap, normal, and a force that is the sum of the three laws for the speed along the line and the mean radius. |
| DemMeasures.ExchangePushesApart | backend/algorithms/dem_simulation.cpp:210-214 | By a contact of positive force the first particle is pushed away from the second and the second away from the first, by that force along their line, and nothing else changes. |
| DemMeasures.NetForce | backend/algorithms/dem_simulation.cpp:227-238 | All contacts together leave each particle with its own force and the pushes of its pairs, given as the first of a pair and taken back as the second, computed from the particles as they were before. |
| DemMeasures.ContactAt | backend/algorithms/dem_simulation.cpp:217-224 | The k-th contact recorded is that of the k-th pair found. |
| DemMeasures.TorqueIsVectorProduct | backend/algorithms/dem_simulation.cpp:227-238 | The torque conserved is at right angles to place and force and as large as the two span. |
| DemMeasures.HertzLaw | backend/algorithms/dem_simulation.cpp:63-77 | The contact force is Hertz's, with effective radius and modulus by their reciprocals. |
| DemMeasures.DampingLaw | backend/algorithms/dem_simulation.cpp:79-83 | Damping opposes the motion; its square is 4 zeta^2 v^2 times modulus, density and overlap. |
| DemMeasures.VanDerWaalsLaw | backend/algorithms/dem_simulation.cpp:85-89 | Attraction with the inverse square of the distance, cut off at 1e-10. |
| DemMeasures.InsideIff | backend/algorithms/dem_simulation.cpp:132-141 | A point is in the crack exactly when it is within half of length, width and depth of the origin along the axes, width and depth in micrometres. |
| DemMeasures.InBoxIff | backend/algorithms/dem_simulation.cpp:248-255 | It is in the box exactly when along each axis it is within the largest of the three. |
| DemMeasures.FourDraws | backend/algorithms/dem_simulation.cpp:143-148 | Each particle tried has four random numbers of its own, for its radius and its three coordinates, each within the range of its axis. |
| DemMeasures.GeneratedParticles | backend/algorithms/dem_simulation.cpp:143-174 | Generated particles are loose and free, of the material and density set, at rest under their weight; no two touch; and their masses sum to density times packing density times the volume of the crack. |
| DemSimulation.Simulation.SetCrackGeometry | backend/algorithms/dem_simulation.cpp:91-109 | Sizes; the first point as origin; and all points, coordinate by coordinate, after the boundary points there already. Without points the origin stays. |
| DemSimulation.Simulation.GenerateParticles | backend/algorithms/dem_simulation.cpp:143-174 | At most the count asked for, pairwise apart, inside the crack, radii in range, ids increasing; each candidate is kept unless it overlaps one kept before. |
| DemSimulation.Simulation.GenerateBoundary | backend/algorithms/dem_simulation.cpp:176-191 | One fixed particle per boundary point; the id of the i-th is the old size plus 2i. |
| DemSimulation.Simulation.ComputeContactForces | backend/algorithms/dem_simulation.cpp:193-225 | Opposite forces and one contact for a touching pair, nothing otherwise. |
| DemSimulation.Simulation.DetectCollisions | backend/algorithms/dem_simulation.cpp:227-238 | The contacts are those of the first min(N, 50000) touching pairs; just those exchange forces; total force and torque are unchanged. |
| DemSimulation.Simulation.IntegrateVelocities | backend/algorithms/dem_simulation.cpp:262-269 | Half a time step of acceleration for free particles with mass. |
| DemSimulation.Simulation.IntegratePositions | backend/algorithms/dem_simulation.cpp:271-278 | Free particles move and their force becomes their weight. |
| DemSimulation.Simulation.ApplyBoundaryConditions | backend/algorithms/dem_simulation.cpp:240-260 | Fixed particles come to rest; free ones outside the box start again at rest inside the crack. |
| DemMotion.DriftIgnoresForces | backend/algorithms/dem_simulation.cpp:271-278 | Whatever the contacts did to a free particle's force is overwritten before it is used. |
| DemMotion.FallsOn | backend/algorithms/dem_simulation.cpp:262-278 | A step takes a falling particle from v_z = -4.905 dt k and z0 - 4.905 dt^2 k(k+1)/2 to the same with k + 1, x and y unchanged. |
| DemRuns.StepOfOne | backend/algorithms/dem_simulation.cpp:280-285 | The four phases of a step, seen by one particle. |
| DemSimulation.Simulation.Step | backend/algorithms/dem_simulation.cpp:280-285 | After a step every fixed particle is as before and every free one is in the box, carries its weight, and has fallen one step further or starts again. |
| DemRuns.TrajectorySettles | backend/algorithms/dem_simulation.cpp:385-465 | At every moment of a run fixed particles are at rest without force, and free ones are in the box and in free fall. |
| DemRuns.TrajectoryTravels | backend/algorithms/dem_simulation.cpp:385-465 | After k steps a fixed particle is as before, and a free one has been falling k steps longer or for less than k steps from a point in the crack. |
| DemRuns.StopsIff | backend/algorithms/dem_simulation.cpp:425-436 | A test, after the steps numbered 100, 200, ..., ends the run exactly when 4.905 |dt| times all the steps that the free massive particles have been falling is below 1e-12 times the number of free ones. |
| DemRuns.StopsIffNobodyFalls | backend/algorithms/dem_simulation.cpp:425-436 | With a time step that is not tiny, such as the default one for up to 4905 free particles, exactly when each of them was put back in that very step, or none has mass. |
| DemRuns.NoFreeEndsAt101 | backend/algorithms/dem_simulation.cpp:425-436 | Without a free particle a run makes min(max_steps, 101) steps. |
| DemRuns.ReportedStepsIff | backend/algorithms/dem_simulation.cpp:443 | The steps reported are those made exactly when their number is not negative and no test before the last step ended the run. |
| DemRuns.NobodyPutBack | backend/algorithms/dem_simulation.cpp:240-260 | While a fall of n steps from anywhere in the crack ends inside the box, every generated free particle has been falling since the start. |
| DemRuns.ReportIsRightIff | backend/algorithms/dem_simulation.cpp:425-443 | For a run from generated particles, one of them free at least, that cannot fall out of the box in the steps asked for: the steps reported are those made exactly when at most 101 are asked for or 4.905 |dt| * 101 is at least 1e-12. |
| DemSimulation.GeneratedStarts | backend/algorithms/dem_simulation.cpp:143-174 | Particles of positive density that were just generated are such a start: free ones have mass and lie inside the crack. |
| DemRuns.ForcesStay | backend/algorithms/dem_simulation.cpp:410-417 | The forces measured never change: each is the particle's own weight, and contacts are not in them. |
| DemRuns.EnergyIsLost | backend/algorithms/dem_simulation.cpp:406-415 | A step in which nobody is put back takes from the measured energy exactly the sum of m (4.905 dt)^2 (k + 3/2) over the particles falling for k steps. |
| DemSimulation.Simulation.Measure | backend/algorithms/dem_simulation.cpp:401-418 | The measuring loop: kinetic and potential energy, largest force, sum of forces. |
| DemSimulation.Simulation.Run | backend/algorithms/dem_simulation.cpp:385-465 | Over a whole run, for any number of steps: the moments are a run of the step, ended exactly by the first test that fires; particles have travelled as said; every tenth energy is recorded; the recorded forces are those of before the run, and their average is over the steps asked for. From -20 down the histories cannot be allocated. |
| DemMotion.FillingBounded | backend/algorithms/dem_simulation.cpp:287-322 | 0 <= filling rate <= min(1, packing density), and porosity plus packing density is 1. |
| DemSimulation.Simulation.CalculateFillingRate | backend/algorithms/dem_simulation.cpp:287-304 | The loop computes the filling rate of the rows below. |
| DemSimulation.Simulation.CalculatePackingDensity | backend/algorithms/dem_simulation.cpp:306-322 | The loop computes the packing density of the rows below. |
| DemMeasures.InsidersFill | backend/algorithms/dem_simulation.cpp:287-304 | While all loose particles are in the crack, as when just generated, the filling rate is the packing density, or one if that is more. |
| DemMeasures.OutsiderDoesNotFill | backend/algorithms/dem_simulation.cpp:287-304 | A particle outside the crack or of the boundary does not change the filling rate. |
| DemMeasures.NobodyFills | backend/algorithms/dem_simulation.cpp:287-304 | With no loose particle in the crack it is zero. |
| DemMeasures.NoCrackNoFilling | backend/algorithms/dem_simulation.cpp:287-322 | A crack without an extent has filling rate and packing density zero. |
| DemMeasures.PackingAddsUp | backend/algorithms/dem_simulation.cpp:306-322 | Packing density times length, width and depth grows with every loose particle by its volume, wherever it is, and with no other. |
| DemMeasures.BallIsSphere | backend/algorithms/dem_simulation.cpp:297-300 | The volume counted is four thirds of pi times the cube of the radius. |
| DemMeasures.LooseAreReported | backend/algorithms/dem_simulation.cpp:388-390 | The particles reported are those not of the boundary, as often as they are there, and the count is theirs. |
| DemMeasures.LooseKeepOrder | backend/algorithms/dem_simulation.cpp:446-450 | They keep their order. |
| DemMeasures.LargestIsAWeight | backend/algorithms/dem_simulation.cpp:401-418 | The largest force of a run is 9.81 times the mass of one of its free particles, or zero, and none has a larger one. |
| ColorScale.SampleColorAtDepth | frontend/js/CrackGradient.js:32-51 | The search loop computes the exact colour. |
| ColorScale.Lipschitz | frontend/js/CrackGradient.js:32-51 | On increasing stops no channel changes faster than the steepest segment. |
| ColorScale.ExactAtStops | frontend/js/CrackGradient.js:32-51 | At a stop the colour is the stop's. |
| ColorScale.ColorAtWithin | frontend/js/CrackGradient.js:32-51 | A channel never leaves the range it has at the stops. |
| ColorScale.DefaultSteepest | frontend/js/CrackGradient.js:4-10 | The steepest slopes of the default scale: 0.0142, 0.0058 and 0.008 per micrometre in red, green and blue. |
| CrackGradient.IndexNear | frontend/js/CrackGradient.js:53-55 | The entry looked up is within half an entry of the depth asked for. |
| CrackGradient.IndexClamps | frontend/js/CrackGradient.js:53-55 | Depths outside the range give the first or the last entry. |
| CrackGradient.TableIsClose | frontend/js/CrackGradient.js:53-61 | Every channel of the entry is within L * maxDepth / 510 of the exact colour, L the steepest slope. |
| CrackGradient.ByteOf | frontend/js/CrackGradient.js:26-28 | A byte is the rounded number but for a multiple of 256; a channel between zero and one is kept to the nearest 255th. |
| CrackGradient.BytesAreColors | frontend/js/CrackGradient.js:15-30 | So for scales with such channels the byte table holds the exact colours, rounded. |
| CrackGradient.CrackGradient.constructor | frontend/js/CrackGradient.js:2-13 | Defaults for missing options and a depth of zero; a table for them. |
| CrackGradient.CrackGradient.BuildLUT | frontend/js/CrackGradient.js:15-30 | The tables hold exactly the 256 sampled colours, and their bytes, which for channels between zero and one are those of the exact colours, rounded. |
| CrackGradient.CrackGradient.SetMaxDepth | frontend/js/CrackGradient.js:117-120 | The tables belong to the new depth. |
| CrackGradient.CrackGradient.SetStops | frontend/js/CrackGradient.js:122-125 | The tables belong to the new stops. |
| CrackGradient.CrackGradient.SampleColor | frontend/js/CrackGradient.js:53-61 | After any sequence of these calls the colour is the table's and within the bound of the exact one; for a maximum depth of zero it is that of depth zero at every other depth, and undefined at zero. |
| CrackLines.SearchIsExact | frontend/js/crack_lines.js:24-32 | On the scale the search without end cases finds the exact colour too. |
| CrackLines.TubeColor | frontend/js/crack_lines.js:244-257 | The tube colour is the exact colour at every depth, clamped or not. |
| CrackLines.BuildColorLUT | frontend/js/crack_lines.js:11-39 | The same table as a default colour gradient's. |
| CrackLines.VertexAt | frontend/js/crack_lines.js:112-124 | Every point of every crack is the vertex at its offset. |
| CrackLines.IndexAt | frontend/js/crack_lines.js:126-131 | Every segment joins a point and the next of one crack. |
| CrackLines.NoSegmentJoinsTwoCracks | frontend/js/crack_lines.js:108-132 | All indices are in range and no segment joins two cracks. |
| CrackLines.MeshShowsPoints | frontend/js/crack_lines.js:112-124 | A mesh that holds the vertices of its lines shows every point that was added, where it is and in the colour of its depth. |
| CrackLines.MergedCrackLines.AddCrack | frontend/js/crack_lines.js:63-85 | A line of as many points, each a tenth of the coordinates, 15 up, with depth and width of the point, is appended under the crack's id; fewer than two points are ignored; the mesh stays as it was. |
| CrackLines.MergedCrackLines.Build | frontend/js/crack_lines.js:87-155 | The buffers are filled exactly to their ends with all vertices, their colours and all segments; every point of every crack added stands at its vertex, at a tenth of its coordinates and 15 up, in a colour that is, for depths on the scale, within half a table entry times the steepest slope of the exact one for its depth. |
| CrackLines.MergedCrackLines.SampleColor | frontend/js/crack_lines.js:41-48 | The colour of the gradient with default stops. |
| CrackLines.MergedCrackLines.PickAt | frontend/js/crack_lines.js:170-184 | For every index position of the mesh the crack returned is the one whose vertices that index names, also when cracks were added since the build. |

## Assumptions

- Atomics are sequentially consistent; the queue has one consumer, as every queue that is wired has.
- `wire_pipeline` takes the input queues of the two fan-outs before any is set
  (`backend/src/main.cpp:96`, `backend/src/main.cpp:103`); the network starts with these queues in place.
- No `process` throws, and the database layer does not throw between acquiring and releasing.
- A COMMIT reported as failed has not taken effect, and a lost connection discards what was staged and
  stays lost. A statement that is answered by an error aborts an open transaction, or, if it is COMMIT,
  ends it; one that does not reach the server changes nothing; BEGIN inside a transaction changes
  nothing, and is refused in an aborted one.
- Floating-point arithmetic is arithmetic over the reals; on the wire floats and doubles are opaque words.
- `sqrt`, `pow`, `cos` and `sin` are parameters: the first two non-negative and monotone on
  non-negative arguments, cos 0 = 1, sin 0 = 0. Random numbers are a parameter whose n-th value lies
  in the range asked for; statement outcomes and what other database clients do are parameters too.
- The JSON parser is a predicate on byte strings: the texts on which it does not throw.
- The flag byte of a laser record is read without a bounds check in the source
  (`backend/src/profinet_parser.cpp:122`); out of range it counts as a rejected record here.
- The three `read_double` calls in one initialiser (`backend/src/profinet_parser.cpp:141-145`) are three consecutive doubles.

## Left out

- Pipeline.HistoriesAreFunctionsOfInput: says nothing about `stop` and about a `process` that throws, which drops the rest of a message's outputs.
- AlertMonitor.StopEndsTheWorkerIff: about a moment with no thread inside `enqueue_alert`; a later `notify_one` or a spurious wakeup can still rescue a worker that `stop` has missed.
- CrackGrowth.CrackPropagationModel.Predict: needs a horizon of at least one hour, because the source divides by it; negative horizons and step counts and the 32-bit overflow of `720 * time_steps` are not modelled. A quotient by zero is a case of its own, zero times infinity an arbitrary parameter.
- Predictions.CutShortIffCritical: the critical length itself is only the formula; nothing is claimed about the power function beyond sign and monotonicity.
- DemSimulation.Simulation.GenerateParticles: needs non-negative crack sizes and ordered radius bounds, which the uniform distributions demand.
- DemSimulation.Simulation.Run: smoothness, bonding strength and durability are not in the result; they are formulas over the final state.
- DemRuns.StopsIff: the square root is exact.
- DemMeasures.HertzLaw: for a Poisson's ratio between minus one and one and positive radii; at one, where the source divides by zero, there is no Hertz force here.
- ClosedForms.LengthsAreGeometric: for exponent two, without corrections and with a positive stress range; for other parameters `ParisLaw.DriveIsSpan` gives the range and nothing is claimed about the powers.
- CrackGradient.CrackGradient.SampleColor: Float32 rounding, and the NaN colours of unordered stops at one depth, are not modelled.
- QueueNetwork.QueuesCarryFunctionsOfInput: each stage is one thread, so a queue has at most one push of a stage in flight; only the first queue has several producers.
- NetworkProgress.NetworkFinishes: that the scheduler gives every thread its turn is not modelled; polls of empty queues and failed compare-exchanges may repeat for ever, so there is a schedule that finishes, and any run of steps that help ends, but not every run does.
- BatchInsert.StoreInTurn: one thread; several at once take connections further from the back.
- DemRuns.ReportIsRightIff: about particles that cannot leave the box in the steps asked for; for others `DemRuns.StopsIff` is in terms of how long each has been falling.
- Predictions.FailureOrderIff: when the shorter crack's record is cut short, `Predictions.LongerCrackFailsNoLater` orders the failure times.
- CrackLines.MergedCrackLines.Build: scene graph, material and visibility; a missing coordinate is zero before the call.
- BatchInsert.RunBatch: SQL text, quoting and time formatting; a row is its values.
- FrameSplitter.BadFrameIsSkipped: an exception thrown by a callback is treated like one thrown by the decoder only as far as consuming the frame goes; callbacks themselves are events.
- `empty()` of the queue and its use with several consumers: nothing calls the first, and the second is unsafe.
- `ModuleBase::start`, `stop`, names and counters: a thread that is stopped simply takes no further step.
- `check_crack_thresholds`, `check_laser_data` and alert texts: comparisons with two constants.
- `build_acknowledge`: it writes beyond the buffer it allocates; an acknowledgement is an event with the cycle counter.
- The UDP server, WebSocket sessions, HTTP routes, metrics, logging and configuration.
- Calibration from X-ray and measured data, and interpolation of histories: they change only parameters.
- Boundary particle ids are not claimed to be unique; they need not be.
- The tube mesh itself, legends, charts and everything that draws.
