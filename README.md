# ConflictGenerator, modelled in Dafny

This project models the conflict generator of the Cosmos DB multi-master demo. The generator holds one client per write region. It runs three campaigns that make several regions write the same document id at nearly the same time, so that the store records a conflict:

- **Insert campaign.** Every region creates a new document with the same id.
- **Update campaign.** One region creates a document. Then every region replaces it under If-Match on its entity tag.
- **Delete campaign.** One region creates a document. Then the regions alternately delete it and replace it, both under If-Match. A round whose delete and replaces all lose their races starts over with a new seed. The campaign stops once a round has a committed replace and the conflict feed is non-empty.

The store is external. In the model it is a `DocumentStore.Store` object that holds:
- the answers it will give to creates, replaces and deletes, in the order the requests are issued;
- the entry counts its conflict-feed reads will return;
- a log of every request sent, together with the region of the client that sent it.

When a queue runs out, the call never completes: its `Task` stays `Pending` and the campaign ends `Blocked`. The operator's key presses are a finite `seq<char>`. Its first element is the initial "press any key". The insert and update campaigns read each later element after a round. The delete campaign reads only the first key and then loops on the conflict feed alone.

Layout:
- `wrappers.dfy`: `Option`.
- `documents.dfy`: `SampleDoc` as a datatype, the decimal id text and its round trip, the `Resource` a store returns, and the SDK `Document` object, whose region the update path changes in place.
- `store.dfy`: status codes, requests, replies and the scripted `Store`.
- `outcomes.dfy`:
  - the classification of a store answer into a committed document, a lost race (`null`) or a rethrown error;
  - `Task.WhenAll` over task completions.
- `rules.dfy`: the pure decision rules:
  - the operator's Y/y answers;
  - the Delete/Update toggle of the delete fan-out;
  - the delete round's conflict-feed scan.
- `rng.dfy`: `RandomGen` with its lazily created per-thread generator.
- `campaigns.dfy`: what each campaign ends with, as functions of the pool size, the store's answers, the feed counts and the keys, and the properties proved about them.
- `generator.dfy`: the client pool, the three attempt methods, the round fan-outs and the three campaigns. Each campaign method is proved to end as its function in `campaigns.dfy` prescribes.

Where the source parallelises (tasks started per client, then `Task.WhenAll`), the model issues the requests in client order and joins the completions in that order. `Task.WhenAll` ends with the first failure in task order unless some task is still waiting.

## Model

| member | source | states |
|---|---|---|
| Generator.RegionalClient | MultiMasterDemos/ConflictGenerator.cs:27-40 | The client built for a region has exactly that region as its only preferred location, has multiple write locations enabled, uses Direct mode over TCP with Eventual consistency, and keeps the endpoint and key. |
| Generator.ConflictGenerator.constructor | MultiMasterDemos/ConflictGenerator.cs:20-41 | The pool has one client per region, in the order of `regions`; client i is the regional client for `regions[i]`. |
| Documents.NewSampleDoc | MultiMasterDemos/ConflictGenerator.cs:89-97 | The sample document has the name "Scott Guthrie", city "Redmond", postal code "98052", the given user-defined id and region, and an id that parses back to the drawn number. |
| Documents.IntToStringRoundTrip | MultiMasterDemos/ConflictGenerator.cs:91 | The id text `docId.ToString()` parses back to `docId` for every integer. |
| Documents.IntToStringInjective | MultiMasterDemos/ConflictGenerator.cs:91 | Two rounds write the same id text exactly when they drew the same number. |
| Documents.NatToStringValue | MultiMasterDemos/ConflictGenerator.cs:91 | The decimal digits written for n have the value n. |
| Documents.Document.SetRegion | MultiMasterDemos/ConflictGenerator.cs:171 | Setting the region changes only the body's region property; the entity tag and self link are unchanged. |
| Outcomes.Classify | MultiMasterDemos/ConflictGenerator.cs:101-115 | No answer means pending. A successful create or replace yields the stored resource. A successful delete yields no document (`null`), since a delete's response carries only its status. A failure yields a lost race (`null`) exactly when its status is a race status of that operation: 409 for a create, 412 or 404 for a replace or delete. Any other failure is rethrown with its status. |
| Outcomes.WhenAll | MultiMasterDemos/ConflictGenerator.cs:62 | The join is pending iff some task is pending. It returns iff every task returned, and then gives their values in task order. Otherwise it throws the error of the first task that threw, and no earlier task threw. |
| Outcomes.WhenAllAgrees | MultiMasterDemos/ConflictGenerator.cs:62 | Joining a round's `Task`s ends as joining their classified answers does: pending together, throwing the same error, and with a document exactly where the store returned a resource. |
| Campaigns.Join | MultiMasterDemos/ConflictGenerator.cs:62 | A round's join returns only when every attempt got an answer, and then holds one value per attempt. |
| Campaigns.JoinIsWhenAll | MultiMasterDemos/ConflictGenerator.cs:62 | The join computed answer by answer is `Task.WhenAll` over the round's classified answers. |
| Campaigns.JoinThrew | MultiMasterDemos/ConflictGenerator.cs:101-115 | A round's join throws only the status of one of its answers, a failure whose status is not a race status of that attempt's operation. |
| Campaigns.JoinAnswered | MultiMasterDemos/ConflictGenerator.cs:101-115 | A round in which every attempt gets a success or a race status joins and returns. |
| Campaigns.JoinCommitted | MultiMasterDemos/ConflictGenerator.cs:276-291 | A returned join holds a stored resource for an attempt only if that attempt succeeded and was not a delete. |
| Campaigns.WhenAllSameShape | MultiMasterDemos/ConflictGenerator.cs:145 | The awaited `Document[]` has a document exactly where the classified join has a stored resource, and is pending or throws together with it. |
| Generator.Complete | MultiMasterDemos/ConflictGenerator.cs:187-197 | The `Task` of an attempt agrees with the classified answer; a returned document is a new object holding the stored resource. |
| Generator.ConflictGenerator.InsertDocument | MultiMasterDemos/ConflictGenerator.cs:81-116 | Draws the user-defined id in [0, 10), builds the sample document for the client's region, and sends exactly one create into the collection from that region. The returned `Task` agrees with the classification of the store's next answer: `null` exactly on 409 Conflict, rethrow on any other failure. The thread's generator has given one more value; the global one advanced only if the thread's generator was created by this draw. |
| Generator.ConflictGenerator.UpdateDocument | MultiMasterDemos/ConflictGenerator.cs:165-199 | A null document throws before anything is sent. Otherwise the document's region becomes the client's region and nothing else of it changes. Then one replace of the document's self link is sent, carrying the new body under If-Match on the unchanged entity tag, and it is classified with 412/404 as lost races. |
| Generator.ConflictGenerator.DeleteDocument | MultiMasterDemos/ConflictGenerator.cs:271-295 | A null document throws before anything is sent. Otherwise one delete of its self link is sent under If-Match on its entity tag. It is classified with 412/404 as lost races; a success also yields `null`. |
| Generator.ConflictGenerator.InsertRound | MultiMasterDemos/ConflictGenerator.cs:53-60 | Draws the document id in [0, 1000), then sends one create per client, in client order. Each create carries that client's sample document with the round's id. Client i's task agrees with the classification of the i-th answer; nothing else is sent. The thread's generator has given 1 + (one per client) more values. |
| Generator.ConflictGenerator.Seed | MultiMasterDemos/ConflictGenerator.cs:131-136 | Draws the document id. With no clients it throws ArgumentOutOfRange and sends nothing. Otherwise it inserts from the first client only. The thread's generator has given one more value, or two with clients. |
| Generator.ConflictGenerator.UpdateFanOut | MultiMasterDemos/ConflictGenerator.cs:139-143 | For a null seed every task throws NullReference and the store is untouched. Otherwise client i sends a replace of the seed that carries region i, under If-Match on the seed's entity tag, in client order. The shared document ends up with the last client's region, or unchanged with no clients, and keeps its entity tag. Each task agrees with its answer's classification. |
| Generator.ConflictGenerator.DeleteFanOut | MultiMasterDemos/ConflictGenerator.cs:225-242 | With the toggle flag starting at Delete, client i sends the request `TogglePlan(true, n)[i]` calls for, in client order; for a null seed every task throws NullReference. The shared document ends up with the region of the last client that updates (unchanged with fewer than two clients) and keeps its entity tag. |
| Rules.LastUpdater | MultiMasterDemos/ConflictGenerator.cs:226-242 | With two or more clients, the last client that updates is below n, and every later client deletes. |
| Generator.ConflictGenerator.UpdateRound | MultiMasterDemos/ConflictGenerator.cs:128-145 | One update round (seed, fan-out, await) ends in the shape `UpdateJoin` gives for the store's answers. The log grows by exactly the requests it sends. With no clients it sends nothing and takes no answer. Otherwise it first sends client 0's create of the sample document for the drawn id into the collection. Only if that create is answered with a stored resource does each client i then replace that resource under If-Match on its entity tag, with region i in the body, taking one answer each. Otherwise the round has sent the one create and taken one answer. |
| Generator.ConflictGenerator.DeleteRound | MultiMasterDemos/ConflictGenerator.cs:213-244 | One delete round ends in the shape `DeleteJoin` gives for the store's answers. The log grows by exactly the requests it sends. With no clients it sends nothing and takes no answer. Otherwise it first sends client 0's create. Only if that create is answered with a stored resource does client i then send what `TogglePlan(true, n)[i]` calls for on that resource: a delete under If-Match for even i, a replace carrying region i for odd i. Each takes one answer. Otherwise the round has sent the one create and taken one answer. |
| Campaigns.UpdateJoin | MultiMasterDemos/ConflictGenerator.cs:131-145 | An update round's join returns only with clients, after a successful seed insert. |
| Campaigns.DeleteJoin | MultiMasterDemos/ConflictGenerator.cs:216-244 | A delete round's join returns only with clients, after a successful seed insert with an answer for every fan-out attempt; it then holds one value per client. |
| Campaigns.SeedThrew | MultiMasterDemos/ConflictGenerator.cs:107-114 | A failed seed insert throws NullReference exactly when the insert lost its race (409 leaves the seed null, and every fan-out attempt then uses a member of it: `SetPropertyValue` at line 171, `Id` at line 275). Otherwise it rethrows the insert's failure. |
| Rules.TogglePlanAt | MultiMasterDemos/ConflictGenerator.cs:226-242 | With the flag starting at `isDeleteTask` and flipping after every client, client i deletes exactly when its parity matches the start. |
| Rules.DeletePlanParity | MultiMasterDemos/ConflictGenerator.cs:226-242 | Starting at Delete, client i deletes iff i is even and updates otherwise. |
| Rules.DeletePlanMixes | MultiMasterDemos/ConflictGenerator.cs:226-242 | With two or more regions, a delete round races at least one delete against at least one update. |
| Rules.LeadingYes | MultiMasterDemos/ConflictGenerator.cs:67-77 | The count of leading answers that are 'Y' or 'y' is bounded by the answers, every counted answer is 'Y'/'y', and the answer after them is not. |
| Generator.ConflictGenerator.CheckConflictFeed | MultiMasterDemos/ConflictGenerator.cs:250-264 | The scan ends as `ScanFeed` of the results' nullness and the feed counts prescribe. Feed reads are consumed one per scanned document. Every request sent is a conflict-feed read of the collection through the first client. |
| Rules.ScanFeedNothingCommitted | MultiMasterDemos/ConflictGenerator.cs:250-264 | If every result is null, the feed is never read and the round is not confirmed. |
| Rules.ScanFeedConfirmed | MultiMasterDemos/ConflictGenerator.cs:250-264 | A confirmed scan stopped at the first read whose count is above zero. Every earlier read found zero, and some result was a committed document. |
| Rules.ScanFeedUnconfirmed | MultiMasterDemos/ConflictGenerator.cs:250-264 | An unconfirmed scan read the feed once per committed result, and every read found zero entries. |
| Rules.ScanFeedDecides | MultiMasterDemos/ConflictGenerator.cs:250-264 | When the store answers every read, the scan is confirmed iff one of the counts read is above zero. |
| Generator.ConflictGenerator.GenerateInsertConflicts | MultiMasterDemos/ConflictGenerator.cs:43-78 | The campaign ends exactly as `InsertCampaign` prescribes for the pool size, the store's answers and the keys: each round takes the next answer per client, and the loop goes on after a round only on 'Y'/'y'. It waits for the first key, then ends after between 1 and 1 + (leading Y/y answers) rounds; when its loop ends normally it has run exactly 1 + that number. The log grows by exactly the creates it sends, all into the collection. Their number is `InsertCampaignSent` and the answers it leaves are `InsertCampaignLeft`, i.e. n creates and n answers per round it ran (`InsertCampaignTaken`). |
| Generator.ConflictGenerator.GenerateUpdateConflicts | MultiMasterDemos/ConflictGenerator.cs:118-163 | The campaign ends exactly as `UpdateCampaign` prescribes: each round takes one seed answer and one per client, and goes on only on 'Y'/'y'. The same key rule as the insert campaign holds. With an empty pool, the first round aborts with ArgumentOutOfRange. |
| Generator.ConflictGenerator.GenerateDeleteConflicts | MultiMasterDemos/ConflictGenerator.cs:201-270 | The campaign ends exactly as `DeleteCampaign` prescribes: each round takes one seed answer and one per client, scans the conflict feed for the committed results, and starts another round on what is left unless the scan is confirmed. It waits only for the first key. With an empty pool, the first round aborts with ArgumentOutOfRange. |
| Campaigns.InsertCampaignKeys | MultiMasterDemos/ConflictGenerator.cs:47-77 | With no key the campaign never starts a round. Otherwise it runs between 1 and 1 + (leading Y/y answers) rounds, and its loop ends only after exactly that many, before the keys run out. |
| Campaigns.InsertCampaignAborted | MultiMasterDemos/ConflictGenerator.cs:53-62 | The insert campaign aborts after r rounds only for an answer in one of rounds 1..r that is a failure other than 409, whose status it rethrows. |
| Campaigns.InsertCampaignAnswered | MultiMasterDemos/ConflictGenerator.cs:51-77 | If rounds 1..1 + L get only successes or 409s, where L counts the leading Y/y answers, the campaign ends its loop after exactly 1 + L rounds. |
| Campaigns.InsertCampaignTaken | MultiMasterDemos/ConflictGenerator.cs:51-77 | The insert campaign sends `InsertTaken(n, r)` creates, where r is the number of rounds it ran. It leaves the store exactly the answers after the first `InsertTaken(n, r)`. |
| Campaigns.InsertTakenProduct | MultiMasterDemos/ConflictGenerator.cs:53-60 | The answers r rounds of one create per client take are n times r. |
| Campaigns.InsertRoundsSentTaken | MultiMasterDemos/ConflictGenerator.cs:51-77 | The rounds from round next through the round r the campaign ends in send n creates each. |
| Campaigns.InsertRoundsLeftTaken | MultiMasterDemos/ConflictGenerator.cs:51-77 | The rounds from round next through round r leave the answers after n per round. No answer is skipped and none is taken twice. |
| Campaigns.InsertRoundsRan | MultiMasterDemos/ConflictGenerator.cs:51-77 | The rounds from round next on end at round next or later: the loop body always runs a round before it can stop. |
| Campaigns.UpdateCampaignKeys | MultiMasterDemos/ConflictGenerator.cs:122-163 | The insert campaign's key rule. With no clients, the first round throws ArgumentOutOfRange on `regionalClients[0]`. |
| Campaigns.UpdateCampaignAborted | MultiMasterDemos/ConflictGenerator.cs:131-145 | The update campaign aborts after r rounds only in two ways. With no clients it aborts with ArgumentOutOfRange in round 1. With clients it aborts only for an answer in one of rounds 1..r that fails it: a seed insert that lost its race (NullReference) or failed otherwise, or a replace whose failure is not 412 or 404. |
| Campaigns.UpdateCampaignNullSeed | MultiMasterDemos/ConflictGenerator.cs:136-141 | With clients, a seed insert answered 409 leaves the seed null and the first round aborts with NullReference. |
| Campaigns.UpdateCampaignAnswered | MultiMasterDemos/ConflictGenerator.cs:126-163 | If each of rounds 1..1 + L has a successful seed insert and only successes, 412s or 404s for its replaces, the campaign ends its loop after exactly 1 + L rounds. |
| Campaigns.DeleteCampaignKeys | MultiMasterDemos/ConflictGenerator.cs:207-222 | With no key the campaign never starts a round. With no clients its first round throws ArgumentOutOfRange. |
| Campaigns.DeleteCampaignEnded | MultiMasterDemos/ConflictGenerator.cs:211-264 | When the delete campaign ends its loop after r rounds, r is at least 1 and round r is the one whose answers begin at index `RoundStart(n, r - 1)`, i.e. after r - 1 earlier rounds of one seed answer and n fan-out answers each. That round joined and its scan was confirmed, reading the feed from some count b on, and every feed count before b was 0. So every earlier round read only empty feeds. |
| Campaigns.DeleteRoundsEndAt | MultiMasterDemos/ConflictGenerator.cs:211-264 | The same as `DeleteCampaignEnded`, for the rounds started after the first key. |
| Campaigns.DeleteRoundsEnded | MultiMasterDemos/ConflictGenerator.cs:211-264 | Rounds that end the loop end after at least one more round, in the round `FinalRound` names, which joined and had its scan confirmed. |
| Campaigns.DeleteRoundsEndStart | MultiMasterDemos/ConflictGenerator.cs:213-244 | When the rounds after `done` rounds end the loop in round r, the final round begins at answer `RoundStart(n, r - 1 - done)`: each round before it took one seed answer and one answer per client. |
| Campaigns.FinalRoundAnswers | MultiMasterDemos/ConflictGenerator.cs:222-244 | The final round's answers are exactly those from index `FinalStart` on: the earlier rounds used a prefix of the answers, and no answer was skipped. |
| Campaigns.FinalRoundFeed | MultiMasterDemos/ConflictGenerator.cs:251-264 | The final round's scan reads the feed counts from index `FeedBefore` on: the earlier scans read a prefix of the feed, and no count was skipped. |
| Campaigns.FeedBeforeBound | MultiMasterDemos/ConflictGenerator.cs:251-264 | Every feed count read before the final round was 0, since an unconfirmed scan reads only empty feeds. |
| Campaigns.DeleteJoinThrew | MultiMasterDemos/ConflictGenerator.cs:222-244 | A delete round with clients throws only the error of an answer in its window: a failed seed insert (409 leaves the seed null and gives NullReference), or a delete or replace that failed with a status other than 412 or 404. |
| Campaigns.DeleteRoundsAborted | MultiMasterDemos/ConflictGenerator.cs:211-264 | Rounds after `done` rounds abort in round r only as `DeleteCampaignAborted` says, for an answer in one of rounds done + 1 .. r. The counts a scan reads do not move the answer windows. |
| Campaigns.DeleteCampaignAborted | MultiMasterDemos/ConflictGenerator.cs:211-264 | The delete campaign aborts after r rounds only in two ways. With no clients it aborts with ArgumentOutOfRange in round 1. With clients it aborts only for an answer in one of rounds 1..r that fails it: a seed insert that lost its race (NullReference) or failed otherwise, or a delete or replace whose failure is not 412 or 404. |
| Campaigns.ConfirmedRoundCommits | MultiMasterDemos/ConflictGenerator.cs:250-264 | In a confirmed round the seed insert succeeded, some replace (an odd-numbered client) committed, and a feed read from that round on found entries. |
| Campaigns.DeleteRoundNothingCommitted | MultiMasterDemos/ConflictGenerator.cs:250-268 | A delete round in which every replace lost its race reads no feed entry. The campaign then goes on with the next round on the remaining answers and the same feed. |
| Rng.RandomGen.Sample | MultiMasterDemos/ConflictGenerator.cs:334-343 | `Random.Next(min, max)` gives min when the bounds are equal, and otherwise a value in [min, max). |
| Rng.RandomGen.Next | MultiMasterDemos/ConflictGenerator.cs:334-343 | The result is in [min, max). The first call seeds this thread's generator from the global one, which advances once. Later calls reuse the thread's generator and leave the global one as it was. |
| Rng.RandomGen.NextAny | MultiMasterDemos/ConflictGenerator.cs:323-333 | The result is in [0, Int32.MaxValue), with the same lazy creation as `Next`. |

## Left out

- The Cosmos DB SDK calls (`CreateDocumentAsync`, `ReplaceDocumentAsync`, `DeleteDocumentAsync`, `ReadConflictFeedAsync`) are external I/O. The model replaces them with the scripted `Store`, whose answers are given in advance. Replication, arbitration and which region wins are the store's behaviour and are not modelled.
- Real parallelism of the per-client tasks and of `Task.WhenAll`: modelled as issue order.
- All update tasks of a round share one mutable `conflictDoc` (lines 139-141 and 233-242), and `UpdateDocument` sets its region before each replace (line 171). The model takes each replace to carry the body as it is at the moment of that call. Whether the SDK copies the body at the call or reads it later, while other tasks change it, depends on SDK behaviour that is not part of this model.
- `Task.Delay` waits: timing only. All `Console.WriteLine` output: I/O. `Console.ReadKey` is the key sequence.
- The JSON round trip of the document at line 173: it only feeds a log line.
- Building the `Uri` of the endpoint and the `DocumentClient` connection: SDK construction. The client is a value holding the endpoint, the key, the policy and the consistency level. `databaseName` is accepted and unused, as in the source.
- `[ThreadStatic]` and `lock` in `RandomGen`: one thread is modelled. `System.Random`'s algorithm is not visible. A generator is its seed and the count of values it has produced, and its raw stream is a parameter.
- Rng.RandomGen.Sample: the reduction of a raw value into [min, max) is a stand-in. Only the range is claimed, not System.Random's actual values.
- An exception thrown by a conflict-feed read is not modelled. A read either returns a count or never completes.
- Generator.ConflictGenerator.GenerateUpdateConflicts: does not state which requests the campaign logs or which answers it leaves. Each round's requests and answers taken are stated by UpdateRound. The campaign's end is tied to the answers, the keys and the pool size.
- Generator.ConflictGenerator.GenerateDeleteConflicts: does not state which requests the campaign logs or which answers and feed counts it leaves. Each round's requests are stated by DeleteRound, and each scan's by CheckConflictFeed. The campaign's end is tied to the answers, the feed counts, the keys and the pool size.
- A successful `DeleteDocumentAsync` is taken to give back no document: a delete's response carries only its status, and the SDK is not part of this model. So a committed delete yields `null`, and the delete round's scan reads the feed only for committed replaces.
- Rng.RandomGen.Next: requires minValue <= maxValue. `System.Random.Next` throws ArgumentOutOfRangeException otherwise; the generator only calls it with the bounds 0, 10 and 0, 1000, so that path is not modelled.
- Generator.ConflictGenerator.InsertRound, UpdateFanOut and DeleteFanOut state only the shape of each task at round level: pending, the thrown error, null, or some document. The stored contents of a returned document are stated per attempt, by InsertDocument, UpdateDocument, DeleteDocument and Complete.
- A seed insert that loses its race (409) leaves the seed `null`. The model follows the source here: every fan-out task throws NullReference before sending anything, and the round aborts. It does not assume a non-null seed.
- The source builds `regionalClients` by appending to a list in the constructor and never changes it afterwards. The model appends to a local sequence in the same loop and assigns it once to a constant field.
