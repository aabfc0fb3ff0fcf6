# Kervax: a verified model of the panel's state machines

Kervax watches servers and sites: agents report, a panel stores the reports, raises alerts, delivers
them to Telegram chats and a webhook, and can ask for a fresh check of a single problem. This project
models the parts of it that keep memory or run concurrently, and proves what they promise over every
input, every run and every interleaving.

Code that computes values is modelled by functions. Code that loops or changes fields is modelled by
methods and classes, each proved equal to a specification function; what the system promises is then
proved about that specification. Protocols are state machines: a row-locked section, a channel operation
or the code between two waiting points is one step, a run is any sequence of steps, and the network, the
clock and other people's edits are arbitrary.

| file | part of the system |
|---|---|
| `Recheck.dfy`, `Json.dfy` | rechecks of server problems: jobs leased to an agent, answered late, twice or never |
| `PanelWork.dfy` | rechecks of site monitors, probed by the panel itself |
| `AgentSlots.dfy` | the agent's running map, two-place channel and report mutex |
| `Storm.dfy` | one failure on several servers merged into one alert |
| `Delivery.dfy` | a batch over the main chat, the webhook, chats by group and the fallback |
| `Clip.dfy` | cutting a message to Telegram's limit without breaking its HTML |
| `GeoBuild.dfy`, `GeoIndex.dfy` | building the address-to-country table, and searching it |
| `Transfer.dfy` | sustained loss of backup throughput |
| `FillAlert.dfy` | disk filling: holding an alert back, fast fill, releasing it |
| `Flaky.dfy` | flapping monitors |
| `VersionFloor.dfy` | account versions across deletion and restore |
| `DriveMute.dfy` | muting one drive with what it has now |
| `DumpHistory.dfy` | the history of database dumps |
| `RegistryGate.dfy` | the cache and the queue in front of domain registries |

## Model

| member | source | states |
|---|---|---|
| `Recheck.OneVerdict` | backend/app/alert_recheck.py:110-116 | in every run a job that has left `checking` never returns to it and is never changed again but by the list of rechecks committing a row it read while the job was still being checked |
| `Recheck.VerdictLostExactlyWhen` | backend/app/api/alert_rechecks.py:125-154 | a step takes a verdict back exactly if it is such a commit, and the job then ends as `unavailable` |
| `Recheck.LostVerdictWasReadBefore` | backend/app/api/alert_rechecks.py:125-154 | the row such a commit carries was read before the verdict |
| `Recheck.EveryVerdictCanBeLost` | backend/app/api/alert_rechecks.py:125-154 | every run that ends with a verdict goes on with one that takes it back |
| `Recheck.VerdictIsLost` | backend/app/api/alert_rechecks.py:125-154 | a concrete run: created, handed out, found fixed, and ended as `unavailable` by the list |
| `Recheck.VerdictIsJustified` | backend/app/alert_recheck.py:270-302 | `fixed` or `remains` is recorded only by an answer strictly before the deadline, after a hand-out of the same job, under the settings the job was created with, with every required block and certificate, over a block equal to the one captured at the first hand-out or to the answer; for software also over host versions and a package hash equal to those at the first hand-out or to the answer's |
| `Recheck.NoLostUpdate` | backend/app/alert_recheck.py:284-302 | an answer changes the server record only if it records a justified verdict, then the report only in the collector's fields, host versions, hash and package row only for software and to the answer's, and the verified marks only at its kind, only by `fixed` and not for the home page; every other answer leaves it as it was |
| `Recheck.AnswerIsScoped` | backend/app/alert_recheck.py:200-311 | the same for one answer in both directions: a verdict implies completeness, time, lease, settings, block and package-list comparison and fixes the verified marks; no verdict implies `unavailable` and an unchanged record |
| `Recheck.VerdictExactlyWhen` | backend/app/alert_recheck.py:270-311 | exactly when an answer to a job being checked gives a verdict, and that the kind's own test decides which |
| `Recheck.MergedExactlyWhen` | backend/app/alert_recheck.py:200-260 | exactly when the merge succeeds |
| `Recheck.CertKeyIs` | backend/app/kube_expiry.py:33-34 | a certificate is known by its kind and place, and what is missing reads as empty |
| `Recheck.AdmissibleIs` | backend/app/alert_recheck.py:200-234 | what an answer must contain, collector by collector |
| `Recheck.BlocksCompare` | backend/app/alert_recheck.py:80-97 | two reports agree on a collector's block exactly if they agree on each of its fields |
| `Recheck.AnswerBlock` | backend/app/alert_recheck.py:235-238 | the same for an answer and a report |
| `Recheck.FieldsAre` | backend/app/alert_recheck.py:80-97 | which fields belong to which collector |
| `Recheck.GivenExactlyWhen` | backend/app/alert_recheck.py:172-197 | a poll hands out a row exactly if the agent can recheck, the row may be handed out, and fewer than four before it may |
| `Recheck.AvailableIs` | backend/app/alert_recheck.py:181-189 | a row may be handed out exactly if it is being checked, in time, under the same settings and not leased within 30 s |
| `Recheck.PolledIs` | backend/app/alert_recheck.py:181-193 | what a poll makes of a row it reaches |
| `Recheck.MergedIsScoped` | backend/app/alert_recheck.py:235-260 | the merge succeeds only on an admissible answer over an unchanged block (and package list, for software) and leaves all other fields and extras keys alone |
| `Recheck.JobsRemember` | backend/app/alert_recheck.py:180-197 | in every reachable state a job row holds exactly its creation, the time of its last hand-out and the blocks captured at the first |
| `Recheck.StepKeepsJob` | backend/app/alert_recheck.py:172-197 | no step loses a job or changes what it asks; a finished one is touched only by committing an old read; lease and captured blocks change only by a hand-out, and only of a job not leased |
| `Recheck.LeaseGap` | backend/app/alert_recheck.py:184-189 | any two hand-outs of one job are at least 30 s apart |
| `Recheck.AtMostFour` | backend/app/alert_recheck.py:194-196 | a poll hands out at most four jobs |
| `Recheck.OneActiveJob` | backend/app/api/alert_rechecks.py:64-70 | in every reachable state a server problem has at most one job in progress |
| `Recheck.OnlyAnswersDecide` | backend/app/alert_recheck.py:270-302 | only an answer to that job by its server can give it a verdict |
| `Recheck.Panel.TakeRow` | backend/app/alert_recheck.py:181-193 | one row of a poll: expired, skipped while leased, refused after an edit, or handed out |
| `Recheck.Panel.TakeTasks` | backend/app/alert_recheck.py:172-197 | the loop over rows makes the poll step of the protocol and returns exactly the jobs given out |
| `Recheck.Panel.TakeRows` | backend/app/alert_recheck.py:180-197 | its loop over the rows |
| `Recheck.Panel.ApplySnapshot` | backend/app/alert_recheck.py:200-260 | checks, comparison and field-by-field copy compute the merge, or refuse where the source raises |
| `Recheck.Panel.CopyFields` | backend/app/alert_recheck.py:239-246 | the copying loop overwrites exactly the collector's fields |
| `Recheck.Panel.Ingest` | backend/app/alert_recheck.py:270-311 | the method, with its roll-backs, makes the answer step of the protocol on both tables |
| `PanelWork.OneVerdict` | backend/app/alert_recheck.py:325-360 | in every run a monitor's job that has left `checking` never returns to it and is never changed again but by an exit that acts on a row read without a lock |
| `PanelWork.VerdictLostExactlyWhen` | backend/app/alert_recheck.py:325-351 | a step takes a verdict back exactly if it is such an exit |
| `PanelWork.LostVerdictWasReadBefore` | backend/app/alert_recheck.py:325-351 | what the exit goes back to was read before the verdict |
| `PanelWork.EveryVerdictCanBeLost` | backend/app/alert_recheck.py:325-351 | every run that ends with a verdict goes on with one that takes it back |
| `PanelWork.VerdictIsJustified` | backend/app/alert_recheck.py:353-377 | a verdict comes strictly before the deadline from a worker that claimed the job after its creation and read the monitor after that, with the configuration equal at creation, read and write-back, and the fields to be written equal at creation and write-back |
| `PanelWork.WriteBackIsScoped` | backend/app/alert_recheck.py:363-377 | a write-back changes a monitor only together with a verdict, only that monitor, only the kind's own fields, to what was found, the message cut to 256 characters; `fixed` exactly if what was found is good by the thresholds at creation |
| `PanelWork.WriteBackExactlyWhen` | backend/app/alert_recheck.py:353-377 | exactly when a write-back gives a verdict; otherwise the job ends as `unavailable` and no monitor changes |
| `PanelWork.SnapshotsCompare` | backend/app/alert_recheck.py:102-107 | which fields each kind compares |
| `PanelWork.ClaimsAreApart` | backend/app/alert_recheck.py:315-324 | two claims of one job are more than 75 s apart |
| `PanelWork.ClaimableIs` | backend/app/alert_recheck.py:315-324 | exactly when a job can be claimed |
| `PanelWork.OnlyWriteBackDecides` | backend/app/alert_recheck.py:388-419 | only a write-back of a worker on that job, under all four conditions, gives a verdict |
| `PanelWork.WritesOnce` | backend/app/alert_recheck.py:315-324 | however often a job is claimed again, only its first write-back can change a monitor |
| `PanelWork.ExpiryJobsCollide` | backend/app/alert_recheck.py:102-107 | certificate and domain jobs share one date: once one has written it, the other open one ends as `unavailable` |
| `PanelWork.JobsAreBorn` | backend/app/alert_recheck.py:124-127 | every job row holds identity and baseline of the monitor at the step that created it, and a deadline 180 s later |
| `PanelWork.WorkersClaimed` | backend/app/alert_recheck.py:314-330 | every worker claimed a job in progress and not leased; one at the network read the monitor in a later step and found the configuration the job was created for |
| `PanelWork.StepKeepsJob` | backend/app/alert_recheck.py:110-116 | no step loses a job or changes its task, and none but an unlocked exit touches a finished one |
| `PanelWork.Tables.WriteBack` | backend/app/alert_recheck.py:353-419 | the row-locked section, branch by branch, makes the write-back step on both tables |
| `PanelWork.AnyUnder` | backend/app/alert_recheck.py:372-373 | true exactly if some threshold is not below the days left |
| `AgentSlots.AtMostTwoCollect` | agent/recheck.go:214-227 | in every interleaving at most two goroutines collect, no two work on one id, the running set is exactly the ids at work, and the channel counts the places taken |
| `AgentSlots.StartExactlyWhen` | agent/recheck.go:214-221 | a start claims its id exactly if it is 32 hexadecimal digits that nobody is at work on |
| `AgentSlots.RefusedExactlyWhen` | agent/recheck.go:222-227 | a place is refused exactly if two goroutines have one |
| `AgentSlots.RefusedStartIsInvisible` | agent/recheck.go:218-227 | however others are interleaved with a goroutine that starts, is refused and leaves, they could have made the same steps without it, to the same running set, channel and mutex, unless one starts the very id it holds |
| `AgentSlots.OwnStepIsInvisible` | agent/recheck.go:218-227 | each step of a goroutine that gets no place leaves everything others see as it was |
| `AgentSlots.OtherStepIsBlind` | agent/recheck.go:218-227 | anyone else's step is possible without it and leads to the same |
| `AgentSlots.RivalIsTurnedAway` | agent/recheck.go:218-220 | the exception is real: a start on the id held meanwhile is turned away, and without the other goroutine it would have claimed the id |
| `AgentSlots.PublishesAlone` | agent/recheck.go:31-41 | no two publications, nor a publication and an ordinary report, are inside the mutex together |
| `AgentSlots.NeverStuck` | agent/recheck.go:214-250 | in every reachable state with a goroutine under way some goroutine can go on |
| `AgentSlots.StepsLeadOut` | agent/recheck.go:214-250 | each own step brings a goroutine nearer its end and nobody else's step moves it |
| `AgentSlots.NothingLeaks` | agent/recheck.go:221-226 | when all have left, the running set and the channel are empty and the mutex is free |
| `AgentSlots.StepMovesOwner` | agent/recheck.go:218-221 | exactly which steps make a goroutine own an id and put an id into the running set |
| `AgentSlots.StepKeepsClaimants` | agent/recheck.go:218-221 | every step keeps the running set equal to the claimed ids, each claimed once |
| `AgentSlots.StepKeepsCounted` | agent/recheck.go:222-227 | every step keeps the tokens in the channel equal to the places taken, at most two |
| `AgentSlots.StepKeepsOneInside` | agent/recheck.go:236-237 | every step keeps the mutex with exactly the goroutine inside it |
| `Storm.StormsPartition` | backend/app/alerts.py:196-211 | the lists of origins line up with the merged messages, are non-empty, ordered, disjoint and cover every index; one longer than one is all messages of one key on at least three targets |
| `Storm.StormsAreMerged` | backend/app/alerts.py:203-206 | every key seen on three targets or more goes out as one message |
| `Storm.MergedAddress` | backend/app/alerts.py:159-193 | a merged alert has kind, section, group and recovery of every message behind it |
| `Storm.TogetherExactlyWhen` | backend/app/alerts.py:138-150 | two messages go out together exactly if both may be merged, say the same of two servers up to the name, and at least three servers show that failure |
| `Storm.MergedCarries` | backend/app/alerts.py:159-193 | a single message goes out as it is; a merged one carries its parts in order and refers, once each, to exactly their servers |
| `Storm.TargetsAreJoined` | backend/app/alerts.py:161-161 | its target lists the distinct targets, the first one first |
| `Storm.GroupFacts` | backend/app/alerts.py:198-202 | a group holds, in order, exactly the messages of its key |
| `Storm.CollectGroups` | backend/app/alerts.py:198-202 | the dictionary maps exactly the keys that occur to their groups |
| `Storm.MergeStorm` | backend/app/alerts.py:196-211 | the loop produces the partition and the merged messages |
| `Delivery.Dispatch` | backend/app/alerts.py:823-918 | for every answer of the network to every send: each merged message is offered to exactly the channels due, as a digest exactly if the channel has many; a merged message is retried exactly by the retry rule; with a common channel configured one not retried was accepted somewhere, or refused for good by the main chat, or is an out-of-memory alert with an uncertain send while these are tracked, and a retried one had a transient failure; `finished` is the complement of the originals behind retried ones |
| `Delivery.Deliver` | backend/app/alerts.py:862-901 | the same for messages already merged, with the set of out-of-memory servers that count as told |
| `Delivery.LedgerIsDetermined` | backend/app/alerts.py:862-901 | configuration, messages and the network's answers determine all attempts: there is only one ledger with exactly the attempts due |
| `Delivery.NoteKeeps` | backend/app/alerts.py:1033-1113 | noting one pass over a channel keeps every attempt true to the network's answer and to the digest rule |
| `Delivery.AttemptsAre` | backend/app/alerts.py:867-885 | the stages together make exactly the attempts due: main chat, webhook, chats by group, and the fallback exactly if some chat missed a message the main chat has not had |
| `Delivery.Accounting` | backend/app/alerts.py:862-918 | from what happened in each stage it follows that every message is accounted for |
| `Delivery.RetryIs` | backend/app/alerts.py:883-901 | the set arithmetic on common and routed results equals the retry rule stated on the attempts themselves |
| `Delivery.FinishedIsRest` | backend/app/alerts.py:916-917 | over any partition, the originals of messages not retried are exactly those not behind a retried one |
| `Delivery.CollectFinished` | backend/app/alerts.py:916-917 | the originals of the messages that are not retried |
| `Delivery.NotOnMainHasChat` | backend/app/alerts.py:309-322 | an alert the main chat does not get has another chat |
| `Delivery.ChatsAre` | backend/app/alerts.py:214-221 | where an alert goes, from the configuration alone: to exactly the chats whose list for its section names its group, and to the main chat if no list does, if the copy rule holds or if it is such a chat |
| `Delivery.CopyIs` | backend/app/alerts.py:231-280 | the copy rule case by case: the end of something told during a pause, a pause, the choice for the group, the common choice |
| `Delivery.AttemptsMean` | backend/app/alerts.py:862-890 | in plain words which channels a settled message was offered to at each stage |
| `Delivery.AnswersMean` | backend/app/alerts.py:1033-1113 | each attempt has the network's answer and was a digest exactly if the channel was offered as many messages as the threshold |
| `Delivery.RetriesMean` | backend/app/alerts.py:883-901 | in plain words exactly when a message is tried again, and what holds if it is not |
| `Delivery.OomMeans` | backend/app/alerts.py:883-901 | the servers reported back are exactly those behind an alert that some channel accepted or may have taken |
| `Delivery.OomIdsAre` | backend/app/alerts.py:891-897 | which servers stand behind the out-of-memory alerts of a message |
| `Delivery.ChatsDistinct` | backend/app/alerts.py:309-322 | an alert goes to no chat twice |
| `Delivery.SendAlert` | backend/app/alerts.py:623-654 | counts of errors and final refusals and the uncertain mark agree with the channels' answers |
| `Delivery.SendCommon` | backend/app/alerts.py:1020-1069 | accepted, to be retried and in doubt are exactly what the answers to the digest or the single messages say |
| `Delivery.SendBatch` | backend/app/alerts.py:1082-1113 | failed and doubtful messages of one chat are exactly those not accepted, and those with an uncertain answer |
| `Delivery.ExtendPlan` | backend/app/alerts.py:1132-1136 | one message is added to each of its chats but the main one |
| `Delivery.PlanRoutes` | backend/app/alerts.py:1132-1136 | the plan holds each message under exactly its chats other than the main one |
| `Delivery.QueueFallback` | backend/app/alerts.py:1149-1156 | the queue for the main chat grows by exactly the failed messages that may fall back, each once |
| `Delivery.SendChats` | backend/app/alerts.py:1143-1156 | after all chats exactly the planned attempts were made, and each message's result, fallback and doubt are explained by them |
| `Delivery.SendRoutes` | backend/app/alerts.py:1123-1169 | exactly the chats due were tried, the fallback exactly for what some chat missed, and accepted, retried and doubtful follow from these attempts |
| `Delivery.SendMain` | backend/app/alerts.py:867-881 | the main chat is tried with exactly its share and the webhook with everything, and the three result sets follow from their answers |
| `Delivery.CollectOom` | backend/app/alerts.py:891-897 | exactly the servers behind out-of-memory alerts, also inside merged ones, that were accepted or in doubt |
| `Clip.ClipKeepsForm` | backend/app/alerts.py:385-417 | a well-nested text with complete entities clips to a beginning of its tokens, three dots and one closing tag per open tag, which is well nested again |
| `Clip.ClipNeverBreaksMarkup` | backend/app/alerts.py:385-417 | well-nested text clips to well-nested text at every limit from three up |
| `Clip.PlainFits` | backend/app/alerts.py:385-407 | plain text clips to at most `limit` UTF-16 units: unchanged, or a prefix and three dots |
| `Clip.HeadFits` | backend/app/alerts.py:390-407 | in both modes the part in front of the closing tags is a prefix and three dots within the limit |
| `Clip.HtmlFitsExactlyWhen` | backend/app/alerts.py:354-417 | the length of an HTML result is that part plus the closing tags; it stays within 4096 exactly if they fit into what is left, and always if they take at most 96 units |
| `Clip.ShallowTextFits` | backend/app/alerts.py:354-417 | a condition on the text itself: if at every token boundary the open tags can be closed in 96 units, the result stays within 4096 |
| `Clip.TagsOverflow` | backend/app/alerts.py:390-417 | the exact length of a clipped text of opening tags, for every limit that cuts behind a whole tag |
| `Clip.ManyTagsOverflow` | backend/app/alerts.py:354-417 | the reserve of 96 units is not always enough: every text of 1334 or more opening tags clips to 9327 units |
| `Clip.CutFits` | backend/app/alerts.py:390-405 | the text before the cut fits the room left for it |
| `Clip.FitIs` | backend/app/alerts.py:393-395 | of a text with as many characters as there is room, the loop gives back exactly as many as there are two-unit characters among the first |
| `Clip.FitStops` | backend/app/alerts.py:393-395 | for any text the loop keeps all, or gives back from a prefix that does not fit exactly its overshoot |
| `Clip.PlainCutIs` | backend/app/alerts.py:396-398 | the cut is at that index, or at the last line break if one lies behind half of it |
| `Clip.HtmlCutIs` | backend/app/alerts.py:399-405 | HTML is cut there too, then out of a tag, then out of an entity |
| `Clip.OutsideIs` | backend/app/alerts.py:400-405 | a step back goes nowhere if every opener is followed by a closer, else exactly to the one that is not |
| `Clip.StripIs` | backend/app/alerts.py:406-406 | exactly the white space at the end is stripped |
| `Clip.KeepsHalf` | backend/app/alerts.py:393-398 | at least half of what fits is kept of a plain text; for one-unit characters all of the room is used |
| `Clip.WideTextIsLost` | backend/app/alerts.py:393-395 | a flaw of the loop: of a text that begins with as many two-unit characters as the limit only the dots are left |
| `Clip.LowerIs` | backend/app/alerts.py:409-416 | a capital letter of a tag name goes to its small letter, anything else to itself |
| `Clip.MarkIs` | backend/app/alerts.py:409-416 | what one tag does to the stack, opened or not |
| `Clip.BackToBoundary` | backend/app/alerts.py:398-405 | stepping back out of tags and entities lands exactly between two tokens |
| `Clip.StripTokens` | backend/app/alerts.py:406-407 | stripping trailing space removes whole tokens |
| `Clip.TagsAreRead` | backend/app/alerts.py:409-416 | on well-nested text the regular expression and the forgiving stack compute the strict stack of open tags |
| `Clip.ClosersClose` | backend/app/alerts.py:417-417 | the appended closing tags read back as tokens that empty the stack |
| `Clip.U16Bounds` | backend/app/alerts.py:375-377 | a text has between one and two UTF-16 units per character |
| `Clip.U16Concat` | backend/app/alerts.py:375-377 | units add up over concatenation |
| `Clip.RFindIsLast` | backend/app/alerts.py:396-404 | `rfind` gives the last occurrence |
| `Clip.Fit` | backend/app/alerts.py:391-395 | the loop that gives back the overshoot ends at a non-negative index whose prefix fits |
| `Clip.FindCut` | backend/app/alerts.py:390-405 | the loops and steps back find the specified cut |
| `Clip.OpenTags` | backend/app/alerts.py:409-416 | the stack loop computes the unclosed tags |
| `Clip.CloseAll` | backend/app/alerts.py:417-417 | closing tags in reverse order of opening |
| `Clip.Shorten` | backend/app/alerts.py:385-417 | the whole procedure computes the clipped text |
| `GeoBuild.TableIsRight` | ops/build-geoip.py:109-143 | from any list of ranges whose overlaps agree, the table starts at 0, increases strictly, has no equal neighbours, and names for every address the country of a range containing it, or unknown |
| `GeoBuild.CountryIsRight` | backend/app/geoip.py:64-66 | a caller reads the country of a containing range, or nothing if there is none or it is ZZ |
| `GeoBuild.RightExactlyWhen` | ops/build-geoip.py:109-143 | for any list of ranges, overlapping or not: every answer is the country of a range containing the address (unknown if none) if and only if no merged range reaches into a gap behind a later one, unless a range of unknown country reaches as far |
| `GeoBuild.OverlapLosesCountry` | ops/build-geoip.py:117-124 | a concrete enclosing range of another country that sticks out is lost |
| `GeoBuild.SolidAnswers` | ops/build-geoip.py:109-130 | for any list in order, the table answers with the last range begun if it reaches the address, else unknown |
| `GeoBuild.MergedKeeps` | ops/build-geoip.py:133-143 | sorting and merging lose no address of any country and add none, and leave ranges whose overlaps agree apart |
| `GeoBuild.SortRowsSorts` | ops/build-geoip.py:135-135 | sorting is a permutation in order of start, end and country |
| `GeoBuild.GlueKeeps` | ops/build-geoip.py:136-143 | merging keeps the order and exactly the addresses of each country |
| `GeoBuild.GlueParts` | ops/build-geoip.py:136-143 | merged ranges whose overlaps agree lie apart |
| `GeoBuild.FillAnswers` | ops/build-geoip.py:115-121 | the filled list answers with the last range begun if it reaches the address, else unknown |
| `GeoBuild.FillShape` | ops/build-geoip.py:115-121 | its starts rise from 0, strictly if the ranges are apart |
| `GeoBuild.DedupShape` | ops/build-geoip.py:123-130 | collapsing keeps the order and the first entry and leaves no equal neighbours |
| `GeoBuild.DedupKeeps` | ops/build-geoip.py:124-130 | collapsing changes no answer |
| `GeoBuild.Merge` | ops/build-geoip.py:133-143 | the loop that rewrites the last element computes the merged ranges |
| `GeoBuild.Solidify` | ops/build-geoip.py:109-130 | the two loops compute the gap-free table |
| `GeoBuild.Collapse` | ops/build-geoip.py:123-130 | the second loop drops entries equal to their predecessor |
| `GeoIndex.LookupIsScan` | backend/app/geoip.py:69-104 | the uncached answer over the file built from ranges whose overlaps agree is, for every IPv4 and IPv6 address, that of a linear scan |
| `GeoIndex.BuildAndLookUp` | backend/app/geoip.py:38-104 | end to end: ranges merged, made solid, written, loaded and searched through arrays and cache; every answer in any sequence of lookups is that of a linear scan of the ranges |
| `GeoIndex.OddCodeAnswersNothing` | backend/app/geoip.py:53-61 | a code that cannot be encoded ends the load with its start stored and no code: addresses from it on have no country |
| `GeoIndex.GeoDatabase.CountryOf` | backend/app/geoip.py:69-104 | in every sequence of calls the cached answer is the uncached one |
| `GeoIndex.GeoDatabase.Load` | backend/app/geoip.py:38-61 | loading happens once and fills the arrays from the file |
| `GeoIndex.SearchSplit` | backend/app/geoip.py:93-102 | bisecting high halves and walking back over low halves gives the position of one search over whole 128-bit starts |
| `GeoIndex.BisectRight` | backend/app/geoip.py:88-92 | everything in front is at most the key and everything behind is greater |
| `GeoIndex.ReadLines` | backend/app/geoip.py:47-61 | for any file, the arrays hold the starts and codes of the lines up to the first that fails, whose start may already be stored |
| `GeoIndex.SearchFour` | backend/app/geoip.py:88-92 | the IPv4 branch answers by the last entry not above the address |
| `GeoIndex.SearchSix` | backend/app/geoip.py:93-102 | the IPv6 branch does the same over split starts |
| `GeoIndex.WrittenReadsBack` | ops/build-geoip.py:160-165 | round trip: tables of two-letter codes written to the file are what a search of the loaded arrays sees |
| `GeoIndex.BuiltTableIsGood` | ops/build-geoip.py:109-130 | what the builder produces from any valid ranges is ordered and has two-letter codes, as the search needs |
| `Transfer.SlowIsSound` | backend/app/backup_transfer.py:86-97 | a new `slow` means an unbroken chain of samples of one workload ending now, at least 1800 s long, both rates below a quarter of the reference throughout |
| `Transfer.StalledIsSound` | backend/app/backup_transfer.py:86-97 | a new `stalled` means such a chain of at least 3600 s below 128 KiB/s |
| `Transfer.ProblemIsExact` | backend/app/backup_transfer.py:92-98 | the recorded problem is exactly what the history of chains, recoveries and the previous problem says |
| `Transfer.MarksAreExact` | backend/app/backup_transfer.py:88-91 | `slow_at` and `stall_at` are exactly the beginnings of the current chains of bad samples |
| `Transfer.ReferenceIsLearnt` | backend/app/backup_transfer.py:77-83 | the reference is the least rate of an unbroken chain, never below 8 MiB/s nor below half of the least before; once ready that chain lasted at least 600 s and the workload is the same since |
| `Transfer.ReferenceIsFrozen` | backend/app/backup_transfer.py:77-83 | once ready the reference stays until the workload changes |
| `Transfer.ProblemIsLatched` | backend/app/backup_transfer.py:96-113 | a problem ends exactly by a recovered sample or with the workload, its beginning is constant, and its details are always there to show |
| `Transfer.SlowIsComplete` | backend/app/backup_transfer.py:84-97 | completeness on the raw rates: half an hour in an unbroken chain with both rates below a quarter of a ready reference is `slow`, if the newest sample has a rate of 128 KiB/s |
| `Transfer.StalledIsComplete` | backend/app/backup_transfer.py:85-93 | an hour with both rates below 128 KiB/s is `stalled`, with a ready reference or for a mirror |
| `Transfer.SlowAlarmExactlyWhen` | backend/app/backup_transfer.py:92-98 | along a slow chain there is a problem exactly if there was one before or a sample raised it; a stalled sample does not raise `slow` |
| `Transfer.StallHidesSlow` | backend/app/backup_transfer.py:92-98 | a concrete history of half an hour below a quarter of the reference without an alarm, because the samples are stalled too |
| `Transfer.RecoveryIsExact` | backend/app/backup_transfer.py:96-98 | a sample clears a problem exactly if one rate is at least half of the ready reference, or 128 KiB/s without one |
| `Transfer.SampleIs` | backend/app/backup_transfer.py:84-87 | slow, stalled and recovered in raw rates |
| `Transfer.BeginningIs` | backend/app/backup_transfer.py:98-101 | a new problem begins where its chain began and reports the better rate |
| `Transfer.ReferenceIsReached` | backend/app/backup_transfer.py:77-83 | ten minutes in an unbroken chain, never below 8 MiB/s nor halved at once, make the reference ready |
| `Transfer.SlowFromIsChain` | backend/app/backup_transfer.py:88-91 | the beginning of a slow stretch starts a maximal unbroken chain of slow samples |
| `Transfer.StalledFromIsChain` | backend/app/backup_transfer.py:88-91 | the same for stalled samples |
| `Transfer.Observe` | backend/app/backup_transfer.py:55-102 | which reports change nothing, which end the history, and that any other advances the summary by one event |
| `Transfer.LearnBase` | backend/app/backup_transfer.py:77-83 | the field updates compute the learning rule |
| `FillAlert.HoldIsSound` | backend/app/fill_alert.py:77-104 | a first alert below critical and without fast fill: every tick for at least 1800 s was over the threshold with nothing announced |
| `FillAlert.FirstAlert` | backend/app/fill_alert.py:77-104 | with nothing announced, an alert comes exactly when critical, filling fast, or over the threshold for the hold time |
| `FillAlert.ReleaseIsExact` | backend/app/fill_alert.py:77-104 | with something announced, above the release line the level is the larger of the announced one and that of the thresholds; below it the announced one until the stretch has lasted half an hour, and then zero |
| `FillAlert.ReleaseIsSound` | backend/app/fill_alert.py:77-104 | a return to zero means every tick for at least 1800 s was below the release line |
| `FillAlert.HoldIsComplete` | backend/app/fill_alert.py:97-103 | half an hour over the threshold with nothing announced does raise the level |
| `FillAlert.ReleaseIsComplete` | backend/app/fill_alert.py:91-96 | half an hour below the release line in one epoch does release it |
| `FillAlert.LevelWasSeen` | backend/app/fill_alert.py:77-104 | over any run the announced level is one the thresholds gave at some tick since it was last zero |
| `FillAlert.LevelIsAnnounced` | backend/app/fill_alert.py:77-104 | the remembered level is what the last announced tick returned; levels that were not announced leave no trace |
| `FillAlert.ThresholdsOff` | backend/app/fill_alert.py:77-104 | with every threshold switched off zero is returned at once, whatever was announced |
| `FillAlert.StoreIsExact` | backend/app/fill_alert.py:77-104 | `since` and `cool` are exactly the beginnings of the current stretches |
| `FillAlert.StretchFacts` | backend/app/fill_alert.py:77-104 | every tick of a stretch satisfies what the stretch is about |
| `FillAlert.FastFillIsEven` | backend/app/fill_alert.py:45-74 | a fast fill rises in each third of the window at least at the reported rate, in one exactly at it, and that rate fills the disk within half an hour |
| `FillAlert.FastFillExactlyWhen` | backend/app/fill_alert.py:45-74 | exactly when the disk fills fast: six points over eight minutes, and between the ends of the window and the points nearest to its thirds every stretch climbs fast enough to fill the disk in half an hour |
| `FillAlert.RecentIs` | backend/app/fill_alert.py:52-53 | the window holds exactly the points of the last ten minutes but not of the last second |
| `FillAlert.JumpIsNotFast` | backend/app/fill_alert.py:45-74 | a single jump after a flat window is never a fast fill |
| `FillAlert.FindFastFill` | backend/app/fill_alert.py:45-74 | the procedure computes the fast-fill rule |
| `FillAlert.CollectWindow` | backend/app/fill_alert.py:45-58 | the window holds the recent points in order and the current value |
| `FillAlert.JudgeMarks` | backend/app/fill_alert.py:59-74 | the loop over thirds computes the verdict on four marks |
| `FillAlert.Step` | backend/app/fill_alert.py:77-104 | the branches compute the step rule from stored state, value and fast fill |
| `Flaky.ShortFailures` | backend/app/flaky.py:20-46 | the two counts are the down checks among the last twenty in maximal runs shorter than `long_run`, and the number of such runs reaching into them |
| `Flaky.FindRuns` | backend/app/flaky.py:27-36 | the first loop lists exactly the maximal down runs |
| `Flaky.CheckFlaky` | backend/app/flaky.py:56-67 | the flag follows the counts, the outage test and the previous flag |
| `Flaky.FlagExactlyWhen` | backend/app/flaky.py:49-67 | the flag in numbers: unchanged in an outage, raised by four short failures in three runs of the last twenty checks, kept while there are two |
| `Flaky.CleanWindowClears` | backend/app/flaky.py:56-67 | twenty checks without a failure always clear the flag |
| `Flaky.OutageKeepsFlag` | backend/app/flaky.py:49-67 | an ongoing outage never changes the flag |
| `Flaky.ShortHistorySuffices` | backend/app/collector.py:936-947 | the last window plus `long_run` minus one checks give the same counts, outage test and flag as the whole history |
| `Flaky.ShorterHistoryMisleads` | backend/app/collector.py:936-947 | one check fewer is not enough: a concrete family of histories where a run cut at its beginning looks short |
| `Flaky.FlagsAgree` | backend/app/collector.py:922-953 | over a whole life, with the threshold edited and episodes closed and reopened in any order, the flag from what the caller reads equals the flag from the full history since the last cut |
| `Flaky.CutIs` | backend/app/collector.py:922-953 | the unread part of the history ends where the last episode was closed, and is empty once one is reopened or if none was closed |
| `Flaky.FlagIs` | backend/app/collector.py:922-953 | the flag at any time is off, or what the last judgement made of the full history since the cut and the flag before it |
| `Flaky.CutFlagIs` | backend/app/collector.py:933-935 | what the flag becomes behind a cut, from counts over the whole history: failures before the cut are dropped, those of a run it shortens are gained, and an outage counts only if all of it lies behind the cut |
| `Flaky.CutChangesFlagExactlyWhen` | backend/app/collector.py:933-935 | a cut changes the flag exactly if what it drops and gains takes a count across its threshold, or it hides the beginning of an outage |
| `Flaky.CutCounts` | backend/app/collector.py:933-935 | the two counts behind a cut, position by position |
| `Flaky.QuietCutChangesNothing` | backend/app/collector.py:933-935 | a cut behind a window without failures changes nothing |
| `Flaky.CutClearsFlag` | backend/app/collector.py:852-859 | a concrete history whose flag a closed episode clears |
| `VersionFloor.LevelNeverFalls` | backend/app/auth_generations.py:30-62 | over every run of reads, creates and bumps with values read earlier, deletes by a possibly stale handle, recreates and restores of any file, the larger of floor and live version of a name never falls but by an outdated bump, and falls by each of these |
| `VersionFloor.LevelFallsExactlyWhen` | backend/app/bootstrap.py:92-97 | a step lowers the level of a name exactly if it writes a value below the version of the row it hits while the stored floor is below that version |
| `VersionFloor.StaleBumpRevives` | backend/app/api/auth.py:197-198 | a concrete run in which a slow logout lowers the level and makes a revoked token good again |
| `VersionFloor.BumpMatchesExactly` | backend/app/api/users.py:150-155 | after a bump exactly the tokens issued at the value written are good; the row's current token survives exactly if two requests had read the same version |
| `VersionFloor.RevokedStaysRevoked` | backend/app/deps.py:58-66 | once a token no longer matches it never matches again, as long as no write is outdated |
| `VersionFloor.CreateRevivesExactlyWhen` | backend/app/api/users.py:119-137 | creating an account revives a token exactly if the floor read is the token's version, which takes a rise of the floor between read and insert |
| `VersionFloor.RevivalExactlyWhen` | backend/app/bootstrap.py:81-91 | a create that read `seen` while the floor is `floor` can revive a token of a deleted account if and only if the floor has risen since the read |
| `VersionFloor.RaceRevives` | backend/app/bootstrap.py:81-91 | for every such pair a run that does, token id included |
| `VersionFloor.StepKeepsSound` | backend/app/auth_generations.py:30-62 | in every run names and serials stay unique and no floor read is above the floor now |
| `VersionFloor.OldTokensStayDead` | backend/app/deps.py:58-66 | a token of a deleted account never matches a later account of that name, as long as no write was outdated |
| `VersionFloor.StepKeepsLevel` | backend/app/auth_generations.py:30-62 | no other step lowers that level |
| `VersionFloor.StepKeepsInv` | backend/app/bootstrap.py:81-97 | without outdated writes every issued token stays explained by its account or buried under floor and successor |
| `VersionFloor.MergeRaises` | backend/app/backup.py:208-222 | restoring a file lowers no floor |
| `VersionFloor.MergeReaches` | backend/app/backup.py:208-222 | restoring raises every floor to at least what the file says |
| `VersionFloor.SettingsAre` | backend/app/backup.py:208-222 | a restored setting is the last row of its key, and every other one is gone |
| `VersionFloor.PasswordRevokes` | backend/app/api/auth.py:161-175 | a changed password leaves exactly the tokens of the next version good; with another version seen nothing happens |
| `VersionFloor.CreatedAndIssued` | backend/app/auth_generations.py:30-32 | a new account starts at the floor read, and a login hands out the row as it is |
| `VersionFloor.Database.MergeRevocation` | backend/app/auth_generations.py:35-45 | the conditional upsert stores the larger value |
| `VersionFloor.Database.Retire` | backend/app/auth_generations.py:48-62 | only the row that still has id and name is bumped, floored and removed; otherwise nothing changes |
| `VersionFloor.Database.ImportSettings` | backend/app/backup.py:208-222 | ordinary settings are replaced, floors only merged, and an unreadable floor rolls everything back |
| `DriveMute.NoDrift` | backend/app/drive_mute.py:159-188 | over any run a hidden drive is compared with the tick at which it was first muted and has been muted since; no counter rose, no bit, sign or lost membership is new |
| `DriveMute.CountersDoNotDrift` | backend/app/drive_mute.py:95-137 | the same in the drive's own numbers then and now |
| `DriveMute.NothingIsLost` | backend/app/drive_mute.py:174-188 | kept and withheld problems together are all problems, and each hidden drive's list is its part of the withheld ones in order |
| `DriveMute.ProblemsAreConserved` | backend/app/drive_mute.py:174-188 | each problem is kept or hidden under exactly one drive, and array problems are kept |
| `DriveMute.HidesExactlyWhen` | backend/app/drive_mute.py:181-188 | a problem is hidden exactly under the serial number behind the first colon of its key, if that drive is hidden and the part in front is neither `raid` nor `raidf` |
| `DriveMute.FreshIsNotWorse` | backend/app/drive_mute.py:95-137 | a baseline taken now is never worse than now |
| `DriveMute.NotWorseMeans` | backend/app/drive_mute.py:106-137 | not worse means no counter up, spare not down, no new bit, no array membership lost and no new sign |
| `DriveMute.Worse` | backend/app/drive_mute.py:106-137 | the loops list exactly the reasons that hold |
| `DriveMute.WorseExactlyWhen` | backend/app/drive_mute.py:106-137 | exactly when a drive is worse: a new grave sign, a counter up, the spare down, a new warning bit, or fewer partitions in an array |
| `DriveMute.AnchorIs` | backend/app/drive_mute.py:95-103 | a baseline holds what the drive has now |
| `DriveMute.FateIs` | backend/app/drive_mute.py:159-180 | exactly when a muted drive is gone, waiting, worse or hidden |
| `DriveMute.PartitionsOf` | backend/app/drive_mute.py:69-72 | the partitions of a drive, by name |
| `DriveMute.OtherwiseItself` | backend/app/drive_mute.py:69-72 | anything else names itself |
| `DriveMute.ArraysAre` | backend/app/drive_mute.py:75-84 | a drive takes part in exactly the arrays with one of its partitions in service |
| `DriveMute.CountAdds` | backend/app/drive_mute.py:81-81 | one is counted for each member that is its partition |
| `DriveMute.KeysAre` | backend/app/drive_mute.py:91-92 | the keys of a drive are a kind, a colon and its serial number |
| `DriveMute.DiskFound` | backend/app/drive_mute.py:87-88 | a serial number finds the first drive listed with it |
| `DriveMute.SerialsAre` | backend/app/drive_mute.py:46-48 | which mutes are about drives |
| `DriveMute.NewSigns` | backend/app/drive_mute.py:106-118 | exactly the kinds with a sign that was not there |
| `DriveMute.DecideDrive` | backend/app/drive_mute.py:159-173 | one drive is gone, waiting, worse or hidden with its baseline |
| `DriveMute.DecideDrives` | backend/app/drive_mute.py:159-173 | the first loop decides every muted drive |
| `DriveMute.SortProblems` | backend/app/drive_mute.py:174-188 | the second loop sorts the problems into kept and hidden by drive |
| `DriveMute.DoSplit` | backend/app/drive_mute.py:159-188 | the whole split: state, hidden, worse, gone and kept |
| `DumpHistory.HistoryIsGood` | backend/app/db_health.py:141-178 | after any sequence of reports neighbouring run starts, the current one included, differ by more than 300 s and at most seven past runs are kept |
| `DumpHistory.HistoryIsSpaced` | backend/app/db_health.py:141-178 | the same in numbers, for every stored entry |
| `DumpHistory.DumpsAre` | backend/app/db_health.py:126-138 | only dumps count, and of several transactions of one key the oldest tells beginning and duration |
| `DumpHistory.SeenIs` | backend/app/db_health.py:151-153 | a block shows what its instances show, the later of two of one name |
| `DumpHistory.ShownIsRunning` | backend/app/db_health.py:146-175 | a dump shown by a new, usable report is the running one afterwards, and one not shown is closed |
| `DumpHistory.UpdatedIsGood` | backend/app/db_health.py:162-177 | one update keeps that |
| `DumpHistory.RunIsKept` | backend/app/db_health.py:162-177 | in one step a running dump goes on with a duration that never shrinks, or becomes the last past run as it was, or is forgotten after thirty days |
| `DumpHistory.DurationsNeverShrink` | backend/app/db_health.py:141-178 | over any sequence of reports a run stored at one time and still stored later, past, running or resumed, has the same start and a duration at least as long |
| `DumpHistory.HistoryIsRecord` | backend/app/db_health.py:141-178 | what is stored is always the end of the list of all runs ever recorded |
| `DumpHistory.RecordGrows` | backend/app/db_health.py:162-177 | that list only grows at its end, and its durations only rise |
| `DumpHistory.UpdateFollowsRecord` | backend/app/db_health.py:162-177 | an update drops only the oldest runs and only beyond seven |
| `DumpHistory.LateReturnStartsAnew` | backend/app/db_health.py:162-177 | a concrete dump missing on the thirtieth day that returns as a new run |
| `DumpHistory.ReturningRunResumes` | backend/app/db_health.py:162-177 | a dump missing from one report and returning resumes its old run exactly if that run began less than thirty days before the report that missed it |
| `DumpHistory.RepeatChangesNothing` | backend/app/db_health.py:141-178 | the same block again changes nothing |
| `DumpHistory.FindDumps` | backend/app/db_health.py:126-138 | the earliest start and longest duration of each database being dumped |
| `DumpHistory.UpdateOne` | backend/app/db_health.py:165-175 | one entry moves by the update rule |
| `DumpHistory.UpdateAll` | backend/app/db_health.py:162-177 | every entry moves, and forgotten ones are dropped |
| `DumpHistory.DumpUpdate` | backend/app/db_health.py:141-178 | the method makes the history step |
| `RegistryGate.RequestsNeverOverlap` | backend/app/checks.py:367-383 | for any number of interleaved callers at most one asks a registry, and no two requests ever made overlap |
| `RegistryGate.RequestsAreSpaced` | backend/app/checks.py:367-383 | each request starts at least 1.1 s after every normally completed one ended, and a second one for a domain not forgotten meanwhile only after the answer's lifetime |
| `RegistryGate.LogIsHonest` | backend/app/checks.py:351-383 | the record of requests used above changes only by starting, ending and forgetting |
| `RegistryGate.MissMeansOutlived` | backend/app/checks.py:335-348 | a cache miss means every unforgotten answer of the domain has outlived itself |
| `RegistryGate.RunKeepsInv` | backend/app/checks.py:367-383 | lock, record, gap and cache stay consistent in every reachable state |
| `RegistryGate.StepKeepsOwner` | backend/app/checks.py:372-372 | the lock belongs to exactly the caller past it |
| `RegistryGate.StepKeepsSerial` | backend/app/checks.py:372-381 | a request is running exactly while the lock's owner asks, and requests stay one after another |
| `RegistryGate.StepKeepsGapped` | backend/app/checks.py:377-381 | completed requests ended by the remembered time, and a pause reaches the gap after it |
| `RegistryGate.StepKeepsFresh` | backend/app/checks.py:374-382 | the cache covers every unforgotten answer, and a caller past the second look has outwaited them |
| `RegistryGate.StepKeepsSpaced` | backend/app/checks.py:377-382 | no step starts a request too early |
| `RegistryGate.ForgetDomain` | backend/app/checks.py:351-364 | exactly the entries the host belongs to are dropped |
| `RegistryGate.ForgottenExactlyWhen` | backend/app/checks.py:360-364 | the entry of the host itself and those of the domains it lies below |
| `RegistryGate.HitExactlyWhen` | backend/app/checks.py:335-348 | exactly when the cache answers, by age and kind of answer |
| `RegistryGate.CallerMeets` | backend/app/checks.py:367-380 | what a caller meets before and behind the lock, with a pause that ends exactly 1.1 s after the last completed request |
| `RegistryGate.AnswerServes` | backend/app/checks.py:380-383 | an answer is cached as given and serves exactly until its lifetime is over |

## Left out

- Network, database, file and Docker calls: each is an arbitrary outcome or one atomic step.
- Message texts, digests' wording, button rows, personal delivery, alert history and notes about broken channels: text building around the delivery modelled here.
- The memory of a dead link inside one batch: the network is an arbitrary function from sends to outcomes, which includes what that memory would decide.
- `Clip.Shorten`: limits below three, where the room for the text would be negative, are not modelled; in a tag name every character beyond ASCII counts as a word character, while Python excludes some, such as punctuation and emoji.
- Hashes (`identity`, `digest`, the key of a stored version): equality of the hashed values; a collision is not modelled.
- Recheck API: rate limits, retention of old jobs, and the probe a local agent makes for a monitor.
- `PanelWork.Tables.WriteBack`: what a check run or a page scan makes of the monitor (`record_outcome`, `tamper.observe`), and whether a page settles the question, are inputs; the snooze of expiry dates and incidents are not modelled.
- Recheck: whether the problem is still there (`server_left`) and the package list's versions are inputs; the server row read before the lock in a poll is treated as read with it.
- The agent's collectors, the size limit of an answer and a crash of the agent: only the sharing of ids, places and the mutex is modelled.
- GeoIP: downloading, the text of numbers, stripping and parsing an address (a parameter), and the lock around a first load by several threads.
- GeoIP: a file whose starts are out of order; only a file the builder does not write has one.
- Monitors: when an episode opens and closes, and what it announces; `Flaky.FlagsAgree` takes these as arbitrary events.
- `Transfer.Observe`: the workload read from the backup state and the parsing of numbers are inputs.
- `FillAlert.FindFastFill`: rounding of the reported rate and time, and parsing of stored times.
- Account ids inside tokens: `VersionFloor.OldTokensStayDead` and `VersionFloor.RevokedStaysRevoked` compare name and version only; the further comparison of ids refuses more, and does not help in `VersionFloor.RaceRevives`, where the id is reused.
- `DriveMute.Worse`: the wording of reasons; the NVMe warning byte is a set of bits.
- `DumpHistory.FindDumps`: recognising a dump by its application name, staleness of a block and time zones are inputs.
- `RegistryGate.ForgetDomain`: taking the host out of an address typed by a person; RDAP and WHOIS answers are arbitrary.
- Sealing of backups and signing of agents, rule tables and advice, access audit, the front end, the landing page, demo data and scripts.
