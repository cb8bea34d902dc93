# Thumbnail daemon, client library and video thumbnailer: a verified model

The model covers the parts of the thumbnailer where state, concurrency or arithmetic decide whether it is right.
Each component is one file with two modules. The `...Spec` module says what a state is, what every step does to it,
and proves what all runs keep. The other module holds the classes and methods that change fields and buffers step by
step, as the C code does; each is proved to do exactly what the specification function says. The thumbnailer, registry,
client and video thumbnailer objects carry their history as a ghost field, and `Valid()` says that the object is where
that history leads, so the theorems about runs apply to every such object. Components that are expressions only (fitting, cropping, art paths) have just the first module.

| file | component |
|---|---|
| `ThumbnailQueue.dfy` | the generic thumbnailer's task list, its two sorted pools and three workers, as a step system |
| `Dispatch.dfy`, `DispatchVerdicts.dfy` | splitting a request by scheme and MIME type, and answering each group |
| `PluginRegistry.dfy` | the plugin registry with priorities |
| `ThumbnailStore.dfy` | move, copy and delete of thumbnails, all sizes and both formats |
| `VideoThumber.dfy` | the video thumbnailer's state machine, with and without playback arbitration |
| `ThumbnailClient.dfy` | the client library's reference-counted requests under asynchronous replies |
| `ExifOrientation.dfy`, `ExifBytes.dfy` | the EXIF orientation reader, paired with an encoder after TIFF 6.0 sections 2 and 8 |
| `PixelMirror.dfy` | mirroring and flipping a strided pixel buffer |
| `CacheCleaner.dfy` | eviction from the cache by size and age |
| `NameStrip.dfy`, `ArtPath.dfy` | normalising names, and the path of art for a pair of names |
| `CropGeometry.dfy`, `FitBox.dfy` | the crop window, and scaling into a box |

Runs are sequences of events of any length. An event stands for one callback, one critical section or one signal of one
thread; every order of events is allowed. Answers of files, services, plugins and the pipeline are inputs and
may be anything, except as said here:

- `thumbnailer_crash_out` is called at most once, because the process exits right after it (daemon/thumb-hal.c:20-32).
  `TwoCrashesFinishTwice` shows what a second call would do.
- A plugin that fails names some of the URLs it was given, each once (daemon/plugins/gdkpixbuf-plugin.c:447-469).
  `GroupIsConserved` says exactly what is needed of a handler.
- The digests of the names compared do not collide, and lower-casing a lower-cased name or a space changes nothing.
- Thread pools insert by the given comparison, searching from the tail, and serve the head, as GLib documents.
- Doubles are reals. The host is little-endian.
- A callback of the application does not iterate the main loop, so replies and signals never arrive inside one. The
  library's own join functions do iterate it (thumbs/hildon-thumbnail-obj.c:634-649, 690-710); an application that joins
  inside a callback is outside the model.
- Once the video thumbnailer's quit timer has fired nothing more is delivered. In the code a call that is dispatched in
  the same iteration of the main loop, after the timer, is still accepted and then lost.

What the code does where its documentation, or a reader, might expect something else:

- A plugin outbid on a key is not kept, so unregistering the winner leaves the key unserved though another plugin's
  offer of it stands. `ForgottenIff` says exactly when; `OutbidIsForgotten` is an instance.
- `unqueue` does not silence a request that is answered from the cache while the answer is still to be dispatched.
  `UnqueueSilencesIff` proves that this is the only case; `CachedIgnoresUnqueue` is an instance.
- A Finished signal that overtakes the reply to Queue leaves its table entry behind, until a further Finished signal
  under that handle or the reply to an unqueue removes it. `EntryStaysIff` and `TableEmptyIff` say exactly when an
  entry stays and when the table is empty; `OvertakingLeavesEntry` is an instance.
- The EXIF bounds checks miss two cases: an APP1 marker shorter than the six-byte identifier, and an IFD0 index within
  two of the 32-bit limit. `OutOfBoundsExactly` proves that these are the only two;
  `EmptyApp1Overruns` and `WrappingOffsetOverruns` show both.
- The cache cleaner adds sizes in an `int`: with 2^31 bytes or more the limit may be missed (`WrappedCacheIsKept`);
  `KeepsLongestPrefix` gives the exact condition.
- The cache cleaner compares times as unsigned, so a limit before 1970 removes every file (`NegativeLimitRemovesAll`).
- Fitting with the ratio kept and a zero side gives a single pixel (`ZeroSideGivesOnePixel`).
- Stripping a name is not idempotent: runs of spaces are halved, not collapsed. `StripIdempotentIff` has the
  condition, `WideGapsShrinkTwice` names that fail it.
- The comment before the worker function speaks of one thread (daemon/thumbnailer.c:523-531); the normal pool has two
  (daemon/thumbnailer.c:1319-1325).
- The second look for thumbnails asks for the same JPEG paths as the first (daemon/thumbnailer.c:600-622), so it adds
  nothing and is one answer in the model.

## Model

| member | source | states |
|---|---|---|
| ThumbnailQueueSpec.RunKeepsInv | daemon/thumbnailer.c:297-383 | every interleaving of requests, unqueues, a crash and worker steps keeps each task in exactly one place, on the list exactly until its critical section, with the signals its stage allows |
| ThumbnailQueueSpec.AtMostOnce | daemon/thumbnailer.c:330-347 | each task is started at most once and finished at most once, so a task a crash has finished is not finished again |
| ThumbnailQueueSpec.ExactlyOnceWhenQuiescent | daemon/thumbnailer.c:552-561 | with nothing waiting or running, every task was started once and finished once, Started first and Finished last unless a crash finished it, and all are freed |
| ThumbnailQueueSpec.NeverStuck | daemon/thumbnailer.c:1319-1325 | unless all is quiescent some worker can move |
| ThumbnailQueueSpec.EverySchedulingEnds | daemon/thumbnailer.c:533-995 | however the workers are scheduled, they make at most a given number of moves, outcomes aside |
| ThumbnailQueueSpec.EveryTaskGetsFinished | daemon/thumbnailer.c:533-995 | from every reachable state the workers come to rest, and by then each task queued has been finished exactly once and freed |
| ThumbnailQueueSpec.ListedAreAlive | daemon/thumbnailer.c:555-561 | the task list never holds a freed task nor one past its critical section |
| ThumbnailQueueSpec.WorkersServeTheirPool | daemon/thumbnailer.c:373-380 | there are three workers; requests of more than fifty URLs run on the third only, all others never; no two workers share a task |
| ThumbnailQueueSpec.SizeDecidesPool | daemon/thumbnailer.c:373-380 | a request of up to 50 URLs waits in the normal pool, one of 51 or more in the large pool, and both are listed |
| ThumbnailQueueSpec.OutcomesAreEmitted | daemon/thumbnailer.c:533-995 | the Ready and Error signals of a task are as many as its worker sent while processing it |
| ThumbnailQueueSpec.CrashFinishesAll | daemon/thumbnailer.c:330-347 | a crash signals Finished for every listed task, the newest first, and nothing else |
| ThumbnailQueueSpec.HandlesAreUnique | daemon/thumbnailer.c:353-362 | below 2^32 requests handles name tasks uniquely and none is 0 |
| ThumbnailQueueSpec.TwoCrashesFinishTwice | daemon/thumbnailer.c:330-347 | a second crash would finish a waiting task twice |
| ThumbnailQueueSpec.FlagIsHistory | daemon/thumbnailer.c:307-328 | a listed task is flagged exactly if an unqueue, a replacing request or the crash has hit it since it was queued |
| ThumbnailQueueSpec.RemovalDecides | daemon/thumbnailer.c:555-561 | the critical section sends the task to processing exactly if nothing had hit it before |
| ThumbnailQueueSpec.OutcomeOnlyIfAccepted | daemon/thumbnailer.c:555-561 | any Ready or Error of a task has a critical section before it at which no hit had happened |
| ThumbnailQueueSpec.LateUnqueueIsIgnored | daemon/thumbnailer.c:307-383 | from the removal on, in every run, a task stays off the list with its flags as they are until it is freed |
| ThumbnailQueueSpec.LateUnqueueChangesNothing | daemon/thumbnailer.c:318-328 | an unqueue whose handle no listed task has can be struck from any run without changing where it leads |
| ThumbnailQueueSpec.CompareIsNewestFirst | daemon/thumbnailer.c:296-305 | the unsigned difference read as signed puts the newer first exactly while handles are less than 2^31 apart modulo 2^32 |
| ThumbnailQueueSpec.PoolsStayNewestFirst | daemon/thumbnailer.c:373-380 | while waiting tasks span less than 2^31, both pools stay newest first, across wraparound |
| ThumbnailQueueSpec.PopTakesNewest | daemon/thumbnailer.c:296-305 | what a worker takes is newer than everything left in its pool |
| ThumbnailQueue.Thumbnailer.MarkUnqueued | daemon/thumbnailer.c:307-316 | flags exactly the listed tasks with that handle |
| ThumbnailQueue.Thumbnailer.Queue | daemon/thumbnailer.c:349-383 | the new task, its handle, list place and pool, and the replaced tasks flagged |
| ThumbnailQueue.Thumbnailer.Unqueue | daemon/thumbnailer.c:318-328 | flags under the lock and changes nothing else |
| ThumbnailQueue.Thumbnailer.CrashOut | daemon/thumbnailer.c:330-347 | every listed task is flagged, marked dead and finished |
| ThumbnailQueue.Thumbnailer.Pop | daemon/thumbnailer.c:1319-1325 | a free worker takes the head of its pool |
| ThumbnailQueue.Thumbnailer.EmitStarted | daemon/thumbnailer.c:552-553 | the worker's Started comes before its critical section |
| ThumbnailQueue.Thumbnailer.Remove | daemon/thumbnailer.c:555-561 | takes the task off the list and decides by its flag |
| ThumbnailQueue.Thumbnailer.Leave | daemon/thumbnailer.c:980-992 | Finished unless dead, then freed |
| DispatchSpec.GroupIsConserved | daemon/thumbnailer.c:735-976 | a group's signals name exactly its URLs if and only if a failing plugin names its failed URLs as often as it was given them |
| DispatchSpec.RequestIsConserved | daemon/thumbnailer.c:572-976 | the signals of a request name every URL as often as the request does, for any answers and any drain order |
| DispatchSpec.DistinctIsBalanced | daemon/plugins/gdkpixbuf-plugin.c:447-469 | for distinct URLs the plugins' promise is enough for conservation |
| DispatchSpec.EveryUrlOnce | daemon/thumbnailer.c:572-976 | with distinct URLs each lands in exactly one Ready or Error signal |
| DispatchVerdicts.EveryUrlIsTold | daemon/thumbnailer.c:572-923 | each URL is in a signal that says, with the source's codes and messages, what the file, service or plugin of its scheme and MIME type answered; unreadable files come first in request order, then the cached URLs, the last one first |
| DispatchVerdicts.VerdictIsTheOracles | daemon/thumbnailer.c:572-923 | with distinct URLs every signal naming a URL is Ready if and only if its thumbnails were current, its service answered success, or its plugin succeeded or did not name it as failed |
| Dispatch.SubtractStrv | daemon/thumbnailer.c:399-436 | what is left of a group after its failed URLs, in order |
| Dispatch.Split | daemon/thumbnailer.c:572-707 | the tables built in the loop are the filter by scheme and MIME type in reverse request order; errors and cached URLs beside them |
| Dispatch.ServeGroup | daemon/thumbnailer.c:775-923 | specialised service per URL, plugin per group, or no handler |
| Dispatch.DrainScheme | daemon/thumbnailer.c:744-975 | visiting each entry of a scheme's table once and removing it leaves the table empty, so the assertion after it holds |
| Dispatch.DrainAll | daemon/thumbnailer.c:732-976 | every group is drained, exactly once, in some order |
| Dispatch.Process | daemon/thumbnailer.c:572-976 | the signals sent answer the request: errors, cached URLs, then every group |
| PluginRegistrySpec.LookupIsWinner | daemon/thumbnailer.c:154-225 | a key is served exactly if offered since it was last empty, by the earliest offer of highest priority |
| PluginRegistrySpec.NeverUnregistered | daemon/thumbnailer.c:226-254 | an unregistered plugin is not looked up until registered again |
| PluginRegistrySpec.UnregisterUnservesIff | daemon/thumbnailer.c:226-254 | unregistering a plugin leaves a key unserved exactly if it was the key's winner |
| PluginRegistrySpec.ForgottenIff | daemon/thumbnailer.c:174-254 | a served key is left unserved with a standing offer exactly if the winner is unregistered while another plugin's offer stands |
| PluginRegistrySpec.OutbidIsForgotten | daemon/thumbnailer.c:174-254 | an instance: a plugin outbid on a key does not come back |
| PluginRegistry.Registry.GetPlugin | daemon/thumbnailer.c:154-171 | the two-level lookup answers the winner of the object's history, or nothing if the key has not been offered since it was last empty |
| PluginRegistry.Registry.RegisterScheme | daemon/thumbnailer.c:184-224 | registering one scheme refines the flat map |
| PluginRegistry.Registry.RegisterPlugin | daemon/thumbnailer.c:174-225 | registering a plugin refines the flat map |
| PluginRegistry.Registry.UnregisterPlugin | daemon/thumbnailer.c:226-254 | unregistering refines the flat map |
| ThumbnailStoreSpec.CopyThenDeleteIsMove | daemon/thumbnailer.c:1012-1165 | with distinct sources disjoint from the targets, copy then delete is move |
| ThumbnailStoreSpec.EveryPairIsMoved | daemon/thumbnailer.c:1022-1061 | for every pair of the two lists no file of the source is left and the target has the source's, or its own where there was none |
| ThumbnailStoreSpec.EveryPairIsCopied | daemon/thumbnailer.c:1076-1125 | the same for copying, with the sources kept |
| ThumbnailStoreSpec.UnpairedUntouched | daemon/thumbnailer.c:1022-1125 | what no pair names, or stands past the shorter list, is untouched |
| ThumbnailStoreSpec.OneMorePair | daemon/thumbnailer.c:1022-1125 | pairs are served in order, each on what the earlier ones left, for any lists |
| ThumbnailStoreSpec.DeleteAt | daemon/thumbnailer.c:1139-1162 | deleting takes every file of every listed URI and nothing else |
| ThumbnailStoreSpec.MoveBack | daemon/thumbnailer.c:1012-1064 | moving to fresh distinct targets and back changes nothing |
| ThumbnailStoreSpec.MoveAt | daemon/thumbnailer.c:1012-1064 | where every file is after a move |
| ThumbnailStoreSpec.OthersUntouched | daemon/thumbnailer.c:1012-1165 | files of all other URIs are unchanged by the three operations, whatever the lists |
| ThumbnailStoreSpec.MoveUriAt | daemon/thumbnailer.c:1025-1052 | what moving one URI does to every file of it, all sizes and formats |
| ThumbnailStoreSpec.CopyUriAt | daemon/thumbnailer.c:1079-1116 | what copying one URI does |
| ThumbnailStore.Files.MoveThumbnails | daemon/thumbnailer.c:1012-1064 | the loops do the specified move |
| ThumbnailStore.Files.CopyThumbnails | daemon/thumbnailer.c:1066-1128 | the loops do the specified copy |
| ThumbnailStore.Files.DeleteThumbnails | daemon/thumbnailer.c:1130-1165 | the loops do the specified delete |
| VideoThumberSpec.RunKeepsInv | thumbnailers/gst-video-thumbnailer/gst-thumb-thumber.c:447-899 | the idle source exists exactly when working; working or paused has no quit timer; the pipe is set exactly with a current task; the file queue is a suffix of its files; nothing is queued when stopped; and the tasks accepted are those requested |
| VideoThumberSpec.TraceServesInOrder | thumbnailers/gst-video-thumbnailer/gst-thumb-thumber.c:143-899 | every trace parses as closed brackets of the first requested tasks in order, then at most one open one, and the n-th file is reported as the pipeline answered in the n-th idle call that took a file |
| VideoThumberSpec.VerdictIsResult | thumbnailers/gst-video-thumbnailer/gst-thumb-thumber.c:813-843 | in every legal run an idle call that takes a file reports it Ready, Error 1 or Error 0 exactly as the pipeline answered; nothing else reports a file |
| VideoThumberSpec.TaskHoldsUri | thumbnailers/gst-video-thumbnailer/gst-thumb-thumber.c:143-176 | each non-empty URI is in its task, the last one first |
| VideoThumberSpec.TaskCounts | thumbnailers/gst-video-thumbnailer/gst-thumb-thumber.c:143-176 | a task holds no empty URI and nothing else; its id is its number modulo 2^32 |
| VideoThumberSpec.NextState | thumbnailers/gst-video-thumbnailer/gst-thumb-thumber.c:447-744 | where every event leads from every state, and what quits |
| VideoThumberSpec.NextAsked | thumbnailers/gst-video-thumbnailer/gst-thumb-thumber.c:448-580 | what every event asks of the playback arbiter |
| VideoThumberSpec.AsksBeforeWaiting | thumbnailers/gst-video-thumbnailer/gst-thumb-thumber.c:544-580 | with arbitration, pausing and working follow a request for play, stopping one for stop |
| VideoThumberSpec.WorksOnlyIfGranted | thumbnailers/gst-video-thumbnailer/gst-thumb-thumber.c:477-542 | with arbitration it works only since a grant, without interruption |
| VideoThumberSpec.QuitsByTimer | thumbnailers/gst-video-thumbnailer/gst-thumb-thumber.c:677-682 | the process quits exactly if the timer has fired |
| VideoThumberSpec.TimerOnlyWhenAllServed | thumbnailers/gst-video-thumbnailer/gst-thumb-thumber.c:563-744 | the quit timer is armed, and the process quits, only with every requested task served |
| VideoThumberSpec.IdsIncrease | thumbnailers/gst-video-thumbnailer/gst-thumb-thumber.c:143-155 | task ids count up from 1 in request order, modulo 2^32 |
| VideoThumberSpec.IdleCallCounts | thumbnailers/gst-video-thumbnailer/gst-thumb-thumber.c:803-899 | each idle call lowers the measure and takes one call off the count; the last one returns false |
| VideoThumberSpec.StopsAfterExactly | thumbnailers/gst-video-thumbnailer/gst-thumb-thumber.c:783-899 | left alone it stops after exactly the counted calls, everything served |
| VideoThumberSpec.CallsFromIdle | thumbnailers/gst-video-thumbnailer/gst-thumb-thumber.c:783-899 | from idle, n tasks with F files take F + n + 1 calls |
| VideoThumberSpec.ResumesWhereItWas | thumbnailers/gst-video-thumbnailer/gst-thumb-thumber.c:448-541 | work interrupted and granted again goes on in the same state |
| VideoThumberSpec.GrantedWorkIsServed | thumbnailers/gst-video-thumbnailer/gst-thumb-thumber.c:511-899 | from any state a new request, once play is granted, is served with all before it in exactly the counted calls, and the confirmed stop arms the timer |
| VideoThumber.TaskInfoAddUris | thumbnailers/gst-video-thumbnailer/gst-thumb-thumber.c:157-176 | the non-empty URIs in reverse order |
| VideoThumber.Thumber.SetState | thumbnailers/gst-video-thumbnailer/gst-thumb-thumber.c:684-744 | the idle source and quit timer of each state |
| VideoThumber.Thumber.RequestResources | thumbnailers/gst-video-thumbnailer/gst-thumb-thumber.c:544-561 | both build variants |
| VideoThumber.Thumber.ReleaseResources | thumbnailers/gst-video-thumbnailer/gst-thumb-thumber.c:563-580 | both build variants |
| VideoThumber.Thumber.Create | thumbnailers/gst-video-thumbnailer/gst-thumb-thumber.c:746-761 | the same for a single URI |
| VideoThumber.Thumber.CreateMany | thumbnailers/gst-video-thumbnailer/gst-thumb-thumber.c:746-781 | the task is queued, its id answered and resources asked for |
| VideoThumber.Thumber.PopulateFileQueue | thumbnailers/gst-video-thumbnailer/gst-thumb-thumber.c:783-796 | the task's files appended in order |
| VideoThumber.Thumber.ProcessFunc | thumbnailers/gst-video-thumbnailer/gst-thumb-thumber.c:803-899 | one idle call: a file, or the end of a task and the start of the next, or the stop |
| VideoThumber.Thumber.QuitTimeoutCb | thumbnailers/gst-video-thumbnailer/gst-thumb-thumber.c:677-682 | the timer quits the process |
| VideoThumber.Thumber.StateHintHandler | thumbnailers/gst-video-thumbnailer/gst-thumb-thumber.c:448-474 | effect in every state |
| VideoThumber.Thumber.StateRequestHandler | thumbnailers/gst-video-thumbnailer/gst-thumb-thumber.c:478-507 | effect in every state |
| VideoThumber.Thumber.StateReplyHandler | thumbnailers/gst-video-thumbnailer/gst-thumb-thumber.c:511-541 | effect in every state |
| ThumbnailClientSpec.ReferencesAreAccounted | thumbs/hildon-thumbnail-obj.c:459-594 | in every reachable state the count is the caller's references plus one per pending Queue reply, idle answer, table entry and pending Unqueue reply |
| ThumbnailClientSpec.NothingFinalizedIsTouched | thumbs/hildon-thumbnail-obj.c:291-688 | no handler ever works on a finalized request |
| ThumbnailClientSpec.CalledAtMostOnce | thumbs/hildon-thumbnail-obj.c:291-346 | a request's callback runs at most once |
| ThumbnailClientSpec.StateIsHistory | thumbs/hildon-thumbnail-obj.c:291-688 | in every run a request's fields are sums of what has happened to it: callbacks, references, unqueues, replies due |
| ThumbnailClientSpec.FinishedCallsBack | thumbs/hildon-thumbnail-obj.c:291-308 | a Finished signal calls back the request of its entry, once, unless unqueued, and no other |
| ThumbnailClientSpec.CalledExactlyOnce | thumbs/hildon-thumbnail-obj.c:291-485 | an accepted reply followed by its Finished, with no unqueue or reuse of the handle between, gives exactly one callback, for good |
| ThumbnailClientSpec.CachedIsCalledOnce | thumbs/hildon-thumbnail-obj.c:339-346 | a cached request is called back when its idle source is dispatched |
| ThumbnailClientSpec.NoCallbackAfterUnqueue | thumbs/hildon-thumbnail-obj.c:651-688 | after unqueue returns, the callback of a request that went to the daemon never runs |
| ThumbnailClientSpec.UnqueueSilencesIff | thumbs/hildon-thumbnail-obj.c:339-346 | after unqueue no continuation of any run calls the request back again, if and only if no cached answer of it is still to be dispatched |
| ThumbnailClientSpec.CachedIgnoresUnqueue | thumbs/hildon-thumbnail-obj.c:339-346 | an instance: a cached request is called back all the same |
| ThumbnailClientSpec.EntriesAwaitFinished | thumbs/hildon-thumbnail-obj.c:291-308 | an entry is in the table only for an accepted reply that neither a Finished nor an unqueue reply has followed, but for a Finished being handled now |
| ThumbnailClientSpec.EntryStaysIff | thumbs/hildon-thumbnail-obj.c:291-308 | between callbacks an entry is in the table if and only if an accepted reply put it there and no Finished for its handle and no unqueue reply under it has come since |
| ThumbnailClientSpec.TableEmptyIff | thumbs/hildon-thumbnail-obj.c:459-485 | between callbacks the table is empty if and only if every accepted reply has been followed by one of those |
| ThumbnailClientSpec.TableEndsEmpty | thumbs/hildon-thumbnail-obj.c:459-485 | if each reply is followed by its Finished the table ends empty |
| ThumbnailClientSpec.OvertakingLeavesEntry | thumbs/hildon-thumbnail-obj.c:291-308 | an instance: a Finished before its reply leaves the entry |
| ThumbnailClient.Factory.RequestGeneric | thumbs/hildon-thumbnail-obj.c:577-594 | the new request and the reference its call or source holds |
| ThumbnailClient.Factory.OnGotHandle | thumbs/hildon-thumbnail-obj.c:459-485 | the reply's effect, with and without an earlier unqueue |
| ThumbnailClient.Factory.OnTaskFinishedBegin | thumbs/hildon-thumbnail-obj.c:291-303 | the callback runs unless unqueued |
| ThumbnailClient.Factory.OnTaskFinishedEnd | thumbs/hildon-thumbnail-obj.c:303-308 | the entry and its reference go |
| ThumbnailClient.Factory.RequestUnqueue | thumbs/hildon-thumbnail-obj.c:662-688 | the flag, and the daemon told if the handle is known |
| ThumbnailClient.Factory.OnUnqueued | thumbs/hildon-thumbnail-obj.c:651-660 | the entry and the reply's reference go |
| ThumbnailClient.Factory.HaveAllForRequestBegin | thumbs/hildon-thumbnail-obj.c:339-342 | the callback of a cached request runs |
| ThumbnailClient.Factory.HaveAllForRequestEnd | thumbs/hildon-thumbnail-obj.c:343-346 | the source goes, and its reference |
| ExifOrientationSpec.PayloadRoundTrip | daemon/plugins/epeg-plugin.c:146-242 | reading an encoded payload, in either byte order, gives the first orientation entry's value if it is one SHORT of at most 8, else 0; payloads under 32 bytes give 0 |
| ExifOrientationSpec.MarkerRoundTrip | daemon/plugins/epeg-plugin.c:112-242 | the same through a marker list |
| ExifBytes.ReadsFirstTagged | daemon/plugins/epeg-plugin.c:146-242 | in bytes: after 49 49 2A 00, least byte first, or 4D 4D 00 2A, greatest first, the first entry 0x112 gives its value if type 3, count 1 and at most 8, else 0 |
| ExifBytes.NoTagReadsZero | daemon/plugins/epeg-plugin.c:201-242 | no such entry, or a directory outside the data, gives 0 |
| ExifBytes.NoHeaderReadsZero | daemon/plugins/epeg-plugin.c:150-196 | no announcement in the first sixteen positions, or one at the start, gives 0 |
| ExifBytes.ReadsLastExif | daemon/plugins/epeg-plugin.c:132-144 | the last marker 0xE1 starting with 45 78 69 66 00 00 is read |
| ExifBytes.LittleLiteral | daemon/plugins/epeg-plugin.c:77-109 | a literal little-endian payload reads as its value |
| ExifBytes.BigLiteral | daemon/plugins/epeg-plugin.c:77-109 | its big-endian mirror image reads the same |
| ExifOrientationSpec.ShortMeansFewEntries | daemon/plugins/epeg-plugin.c:150-152 | which payloads are under 32 bytes: those of at most one entry with little around it |
| ExifOrientationSpec.LastExifCounts | daemon/plugins/epeg-plugin.c:132-144 | of several Exif markers the last counts |
| ExifOrientationSpec.OutOfBoundsExactly | daemon/plugins/epeg-plugin.c:112-242 | for any bytes a read leaves the data exactly in the two cases named |
| ExifOrientationSpec.EmptyApp1Overruns | daemon/plugins/epeg-plugin.c:136-142 | an empty APP1 marker is read past its end |
| ExifOrientationSpec.WrappingOffsetOverruns | daemon/plugins/epeg-plugin.c:201-211 | after a regular header exactly two IFD0 offsets are read out of bounds |
| ExifOrientationSpec.Decode16 | daemon/plugins/epeg-plugin.c:91-99 | decoding inverts encoding in both orders |
| ExifOrientationSpec.Decode32 | daemon/plugins/epeg-plugin.c:101-109 | decoding inverts encoding in both orders |
| ExifOrientation.FindMarker | daemon/plugins/epeg-plugin.c:132-144 | the loop over saved markers |
| ExifOrientation.FindHeader | daemon/plugins/epeg-plugin.c:154-192 | the loop over the first sixteen positions |
| ExifOrientation.ScanEntries | daemon/plugins/epeg-plugin.c:220-241 | the loop over IFD0 |
| ExifOrientation.ReadOrientation | daemon/plugins/epeg-plugin.c:112-242 | the whole reader |
| PixelMirrorSpec.Compose | thumbs/hildon-thumbnail-factory.c:134-138 | two calls are one call with the flags combined by exclusive or |
| PixelMirrorSpec.Involution | thumbs/hildon-thumbnail-factory.c:134-138 | each flag combination undoes itself |
| PixelMirrorSpec.PixelGoesTo | thumbs/hildon-thumbnail-factory.c:134-138 | where each pixel goes; both flags are the turn by 180 degrees |
| PixelMirror.BytesLand | thumbs/hildon-thumbnail-factory.c:169-193 | where each byte of the source buffer is found in the destination buffer, in indices and strides |
| PixelMirror.CopyPixel | thumbs/hildon-thumbnail-factory.c:178-191 | one pixel copied, pointers left at the next, nothing else written |
| PixelMirror.CopyRow | thumbs/hildon-thumbnail-factory.c:170-192 | one row, forward or mirrored, nothing outside it written |
| PixelMirror.CopyMirror | thumbs/hildon-thumbnail-factory.c:139-196 | the destination holds the transformed picture and its padding is untouched, for all strides |
| CacheCleanerSpec.KeepsLongestPrefix | thumbs/hildon-thumbnail-factory.c:541-578 | exactly the longest prefix, newest first, that the limits allow is kept, if and only if no running total has wrapped back below the limit at a young file |
| CacheCleanerSpec.CleanedCache | thumbs/hildon-thumbnail-factory.c:541-578 | below 2^31 bytes: what goes is a suffix no newer than what stays, what stays obeys both limits, one more would not |
| CacheCleanerSpec.ThresholdIs | thumbs/hildon-thumbnail-factory.c:566-566 | the age limit as the unsigned comparison sees it |
| CacheCleanerSpec.NegativeLimitRemovesAll | thumbs/hildon-thumbnail-factory.c:566-566 | a limit before 1970 removes every file |
| CacheCleanerSpec.AccumulatedIsWrappedTotal | thumbs/hildon-thumbnail-factory.c:562-569 | the C accumulator is the true total wrapped to an int |
| CacheCleanerSpec.CompareIsNewestFirst | thumbs/hildon-thumbnail-factory.c:523-537 | sorted by the comparator means newest first |
| CacheCleanerSpec.WrappedCacheIsKept | thumbs/hildon-thumbnail-factory.c:562-569 | a total of 2^31 escapes the limit |
| CacheCleaner.CleanCache | thumbs/hildon-thumbnail-factory.c:562-569 | the scan unlinks the specified files in order |
| NameStripSpec.StripIs | daemon/utils.c:342-367 | delimiting, splitting and joining drop the invalid characters, turn tabs to spaces and halve runs |
| NameStripSpec.StripOutput | daemon/utils.c:274-370 | the result is a subsequence of the lower-cased name, with no invalid character, tab or outer white space |
| NameStripSpec.NoBlockRemains | daemon/utils.c:304-340 | removing blocks leaves and creates none |
| NameStripSpec.CutsLeftmost | daemon/utils.c:304-340 | the leftmost bracket closed later is cut up to its first closer; what is before stays, and cutting goes on after it |
| NameStripSpec.KeptIfNothingClosed | daemon/utils.c:322-326 | text in which no bracket is closed stays as it is |
| NameStripSpec.StripKeepsCount | daemon/utils.c:274-370 | of the text outside blocks every character neither forbidden nor white space survives as often as it was there, lower-cased; the forbidden ones, listed, never do |
| NameStripSpec.StripEnds | daemon/utils.c:366-369 | no outer white space, tab or forbidden character, in plain characters |
| NameStripSpec.RemoveBlocksTwice | daemon/utils.c:304-340 | removing blocks again changes nothing |
| NameStripSpec.StripIgnoresBlock | daemon/utils.c:304-340 | a closed block after text without openers changes nothing |
| NameStripSpec.HalveRun | daemon/utils.c:360-364 | n spaces become half as many, rounded up |
| NameStripSpec.StripTwice | daemon/utils.c:274-370 | stripping again only halves the runs again |
| NameStripSpec.StripIdempotentIff | daemon/utils.c:274-370 | it changes nothing exactly if the cleaned, trimmed name has no three spaces in a row |
| NameStripSpec.StripSpaced | daemon/utils.c:274-370 | n spaces between two letters come out as half as many, rounded up |
| NameStripSpec.WideGapsShrinkTwice | daemon/utils.c:274-370 | three or more spaces between two letters shrink the second time too |
| NameStripSpec.EarliestIs | daemon/utils.c:310-320 | the block cut is the leftmost of any kind |
| NameStrip.NextBlock | daemon/utils.c:310-320 | the loop over the kinds finds it |
| NameStrip.CutBlocks | daemon/utils.c:304-340 | the loop terminates with every block cut out |
| NameStrip.StripCharacters | daemon/utils.c:274-370 | the whole normalisation is computed |
| ArtPathSpec.PathsAgreeIff | daemon/utils.c:372-424 | two paths agree exactly if kind, leading slashes aside, and both normal forms do |
| ArtPathSpec.PathSpelledOut | daemon/utils.c:372-424 | the path is directory, kind or album, digest of the first name, digest of the second; none without a name |
| ArtPathSpec.HashedIffNormal | daemon/utils.c:389-400 | hashing sees exactly the normal form, and an absent name meets no present one |
| ArtPathSpec.BlocksDoNotMatter | daemon/utils.c:372-424 | a closed block in a name does not move its art |
| CropGeometrySpec.CropCovers | daemon/utils.c:51-118 | a source smaller both ways is returned; otherwise the result is the smaller of source and request on each side, the window maps onto it exactly, and the scaled source covers it centre on centre |
| CropGeometrySpec.WindowFits | daemon/utils.c:76-101 | the window has the destination's ratio, lies centred in the source and spans one side |
| CropGeometrySpec.WindowIsLargest | daemon/utils.c:59-61 | no such window is larger |
| CropGeometrySpec.NeverEnlarges | daemon/utils.c:103-107 | the scale is at most 1, and 1 exactly if the request reaches the source on a side |
| FitBoxSpec.FitsBox | daemon/plugins/pixbuf-io-loader.c:138-179 | at least one pixel, within the box, touching a side, ratio kept to half a pixel before the clamp |
| FitBoxSpec.LargestFit | daemon/plugins/pixbuf-io-loader.c:138-179 | no uniform scaling that fits is larger by more than the rounding |
| FitBoxSpec.RefitIsIdentity | daemon/plugins/pixbuf-io-loader.c:138-179 | fitting again changes nothing, for every box |
| FitBoxSpec.OneSidedFit | daemon/plugins/pixbuf-io-loader.c:150-159 | with one side free the other is met and the ratio kept from below |
| FitBoxSpec.FreeFit | daemon/plugins/pixbuf-io-loader.c:168-176 | without keeping the ratio each given side is met and the other stays |
| FitBoxSpec.ZeroSideGivesOnePixel | daemon/plugins/pixbuf-io-loader.c:160-167 | a zero side with the ratio kept gives one pixel |

## Left out

- NameStripSpec.Strip: lower-casing is one character to one character and the same everywhere; Unicode mappings to several characters or dependent on position are not modelled. Strings are sequences of code points, not UTF-8 bytes.
- ArtPathSpec.ArtPath: creating the directory, and MD5 itself.
- CropGeometrySpec.CropResize: `int` overflow of the two products that pick the side, and interpolation.
- FitBoxSpec.Fit: rounding inside doubles, and results beyond the range of `int`.
- CacheCleaner.CleanCache: reading the four directories; the sort is taken by its contract, with any order among equal times.
- PixelMirror.CopyMirror: failure to allocate the destination; the row loop's two branches share one method.
- Dispatch.Process: the wait for Tracker and the copies to remote file systems are I/O only (daemon/thumbnailer.c:580-588, 925-967). The wait for a specialised service is one answer per URL: done, failed or timed out (daemon/thumbnailer.c:777-867). Whether thumbnails exist and are new enough is one answer per URL.
- Thumbnailer.Queue: the reply is sent after the lock is released, so its order against Finished is not claimed. Sorted insertion is modelled by what the library promises.
- Thumbnailer.EmitOutcome: an outcome in the queue model is any Ready or Error of the task; which URLs it names is the matter of the dispatch model.
- Thumber: changes of the `quit-timeout` property while running, and the pipe's own properties. A pipeline run is one step, because it does not return to the main loop.
- Factory: one request at a time waits in `join`, whose single shared flag serves all requests; join is not modelled. Errors collected for the callback are not modelled, nor is a failed Queue call, whose reply the code treats like any other.
- Files: files are values under URI, size and format; modification times, permissions and partial failures are not modelled. The SQL and other back ends of a move or copy are not part of this model.
- Registry: the announcement of supported types to the thumbnail manager.
- daemon/thumbnail-manager.c: its modification-time test looks keys up under another name than it stores them, so the intended rule does not run.
- hildon_thumbnail_orientate and string_replace: string tests with inverted sense, and a loop that need not end.
- daemon/albumart.c and daemon/albumart-manager.c: the same protocol with one pool.
- Image decoding, D-Bus, GStreamer and the option and configuration code.
