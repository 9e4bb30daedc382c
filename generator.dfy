/**
 * ConflictGenerator: a pool of clients, one per write region, and the insert,
 * update and delete campaigns that write the same document id from every
 * region at once so that the store records a conflict.
 */
module Generator {
  import opened Wrappers
  import opened Documents
  import opened DocumentStore
  import opened Outcomes
  import opened Rules
  import opened Rng
  import opened Campaigns

  datatype ConnectionMode = Direct | Gateway
  datatype Protocol = Tcp | Https
  datatype ConsistencyLevel = Strong | BoundedStaleness | Session | ConsistentPrefix | Eventual

  datatype ConnectionPolicy = ConnectionPolicy(
    connectionMode: ConnectionMode,
    connectionProtocol: Protocol,
    useMultipleWriteLocations: bool,
    preferredLocations: seq<string>)

  /** A DocumentClient: where it connects and how. */
  datatype Client = Client(
    endpoint: string,
    authorizationKey: string,
    policy: ConnectionPolicy,
    consistency: ConsistencyLevel)

  /** The region a client writes to: the first of its preferred locations. */
  function RegionOf(c: Client): string
    requires |c.policy.preferredLocations| > 0
  {
    c.policy.preferredLocations[0]
  }

  /** The client the constructor builds for one region. */
  function RegionalClient(endpointUrl: string, authorizationKey: string, region: string): (c: Client)
    ensures c.policy.preferredLocations == [region] && RegionOf(c) == region
    ensures c.policy.useMultipleWriteLocations
    ensures c.policy.connectionMode == Direct && c.policy.connectionProtocol == Tcp
    ensures c.consistency == Eventual
    ensures c.endpoint == endpointUrl && c.authorizationKey == authorizationKey
  {
    var policy := ConnectionPolicy(Direct, Tcp, true, []);
    var policy := policy.(preferredLocations := policy.preferredLocations + [region]);
    Client(endpointUrl, authorizationKey, policy, Eventual)
  }

  /**
   * The request a fan-out attempt sends for the seeded document seed: a
   * delete, or a replace carrying the attempt's region; both under If-Match
   * on the entity tag the seeding insert returned.
   */
  function FanOutRequest(kind: OpKind, seed: Resource, region: string): Request {
    if kind == DeleteOp then Delete(seed.selfLink, seed.eTag)
    else Replace(seed.selfLink, seed.body.(region := region), seed.eTag)
  }

  /** The Document? a task yields for a classified store answer, as a new object. */
  method Complete(kind: OpKind, reply: Option<Reply>) returns (task: Completion<Document?>)
    ensures Realizes(task, Classify(kind, reply))
    ensures task.Returned? && task.value != null ==> fresh(task.value)
  {
    match Classify(kind, reply)
    case Pending => task := Pending;
    case Threw(e) => task := Threw(e);
    case Returned(None) => task := Returned(null);
    case Returned(Some(r)) =>
      var d := new Document(r);
      task := Returned(d);
  }

  /**
   * What the first |docs| inserts of a round have done: each built the
   * sample document with the round's id from its client's region, sent its
   * create from that region, and ended as the store's answer classifies.
   */
  ghost predicate InsertedSoFar(collection: string, docId: int, regions: seq<string>, replies: seq<Reply>,
                                tasks: seq<Completion<Document?>>, docs: seq<SampleDoc>, sent: seq<Call>)
  {
    |tasks| == |docs| == |sent| <= |regions| &&
    forall i | 0 <= i < |docs| ::
      0 <= docs[i].userDefinedId < 10 && docs[i] == NewSampleDoc(docId, docs[i].userDefinedId, regions[i]) &&
      sent[i] == Call(regions[i], Create(collection, docs[i])) &&
      Agrees(tasks[i], Classify(CreateOp, Nth(replies, i)))
  }

  lemma InsertedSnoc(collection: string, docId: int, regions: seq<string>, replies: seq<Reply>,
                     tasks: seq<Completion<Document?>>, docs: seq<SampleDoc>, sent: seq<Call>,
                     task: Completion<Document?>, doc: SampleDoc)
    requires InsertedSoFar(collection, docId, regions, replies, tasks, docs, sent) && |docs| < |regions|
    requires 0 <= doc.userDefinedId < 10 && doc == NewSampleDoc(docId, doc.userDefinedId, regions[|docs|])
    requires Agrees(task, Classify(CreateOp, Nth(replies, |docs|)))
    ensures InsertedSoFar(collection, docId, regions, replies, tasks + [task], docs + [doc],
                          sent + [Call(regions[|docs|], Create(collection, doc))])
  {
  }

  /** Every call in calls creates a document in collection. */
  predicate CreatesInto(collection: string, calls: seq<Call>) {
    forall j | 0 <= j < |calls| :: calls[j].request.Create? && calls[j].request.collection == collection
  }

  lemma CreatesIntoAppend(collection: string, a: seq<Call>, b: seq<Call>)
    requires CreatesInto(collection, a) && CreatesInto(collection, b)
    ensures CreatesInto(collection, a + b)
  {
  }

  /**
   * What the first |tasks| attempts of a fan-out on the seeded document
   * seed have done: attempt i sent the request plan[i] calls for from its
   * client's region, and ended as the store's answer classifies.
   */
  ghost predicate FannedOutSoFar(plan: seq<OpKind>, seed: Resource, regions: seq<string>, replies: seq<Reply>,
                                 tasks: seq<Completion<Document?>>, sent: seq<Call>)
  {
    |tasks| == |sent| <= |plan| == |regions| &&
    forall i | 0 <= i < |tasks| ::
      sent[i] == Call(regions[i], FanOutRequest(plan[i], seed, regions[i])) &&
      Agrees(tasks[i], Classify(plan[i], Nth(replies, i)))
  }

  lemma FannedOutSnoc(plan: seq<OpKind>, seed: Resource, regions: seq<string>, replies: seq<Reply>,
                      tasks: seq<Completion<Document?>>, sent: seq<Call>, task: Completion<Document?>)
    requires FannedOutSoFar(plan, seed, regions, replies, tasks, sent) && |tasks| < |plan|
    requires Agrees(task, Classify(plan[|tasks|], Nth(replies, |tasks|)))
    ensures FannedOutSoFar(plan, seed, regions, replies, tasks + [task],
                           sent + [Call(regions[|tasks|], FanOutRequest(plan[|tasks|], seed, regions[|tasks|]))])
  {
  }

  class ConflictGenerator {
    /** One client per region, each preferring its own region. */
    const regionalClients: seq<Client>

    ghost predicate Valid() {
      forall i | 0 <= i < |regionalClients| :: |regionalClients[i].policy.preferredLocations| > 0
    }

    /** The clients' regions, in client order. */
    ghost function Regions(): (r: seq<string>)
      requires Valid()
      ensures |r| == |regionalClients| && forall i | 0 <= i < |r| :: r[i] == Region(i)
    {
      seq(|regionalClients|, i requires 0 <= i < |regionalClients| && Valid() => RegionOf(regionalClients[i]))
    }

    function Region(i: nat): string
      requires Valid() && i < |regionalClients|
    {
      RegionOf(regionalClients[i])
    }

    constructor (endpointUrl: string, authorizationKey: string, regions: seq<string>, databaseName: string)
      ensures Valid()
      ensures |regionalClients| == |regions|
      ensures forall i | 0 <= i < |regions| ::
        regionalClients[i] == RegionalClient(endpointUrl, authorizationKey, regions[i])
    {
      var clients := [];
      for k := 0 to |regions|
        invariant |clients| == k
        invariant forall i | 0 <= i < k :: clients[i] == RegionalClient(endpointUrl, authorizationKey, regions[i])
      {
        clients := clients + [RegionalClient(endpointUrl, authorizationKey, regions[k])];
      }
      regionalClients := clients;
    }

    /**
     * Inserts a new sample document with id docId from client's region; a
     * Conflict answer (another region's insert already replicated) yields null.
     */
    method InsertDocument(client: Client, collection: string, docId: int, store: Store, rng: RandomGen)
      returns (task: Completion<Document?>, doc: SampleDoc)
      requires |client.policy.preferredLocations| > 0
      modifies store, rng
      ensures 0 <= doc.userDefinedId < 10
      ensures doc == NewSampleDoc(docId, doc.userDefinedId, RegionOf(client))
      ensures store.log == old(store.log) + [Call(RegionOf(client), Create(collection, doc))]
      ensures store.replies == Tail(old(store.replies)) && store.feed == old(store.feed)
      ensures Realizes(task, Classify(CreateOp, Head(old(store.replies))))
      ensures task.Returned? && task.value != null ==> fresh(task.value)
      ensures rng.local.Some? && rng.LocalDrawn() == old(rng.LocalDrawn()) + 1
      ensures rng.global == old(rng.GlobalAfterDraw())
      ensures old(rng.local).Some? ==> rng.local.value.seed == old(rng.local).value.seed
    {
      var region := RegionOf(client);
      var userDefinedId := rng.Next(0, 10);
      doc := NewSampleDoc(docId, userDefinedId, region);
      var reply := store.Send(region, Create(collection, doc));
      task := Complete(CreateOp, reply);
    }

    /**
     * Sets the shared document's region to client's region, then replaces it
     * under If-Match on its entity tag; a Precondition Failed or Not Found
     * answer yields null. A null document throws before anything is sent.
     */
    method UpdateDocument(client: Client, document: Document?, store: Store) returns (task: Completion<Document?>)
      requires |client.policy.preferredLocations| > 0
      modifies document, store
      ensures document == null ==> task == Threw(NullReference) && unchanged(store)
      ensures document != null ==>
        document.body == old(document.body).(region := RegionOf(client)) &&
        document.eTag == old(document.eTag) && document.selfLink == old(document.selfLink)
      ensures document != null ==>
        store.log == old(store.log) + [Call(RegionOf(client), Replace(document.selfLink, document.body, document.eTag))] &&
        store.replies == Tail(old(store.replies)) && store.feed == old(store.feed) &&
        Realizes(task, Classify(ReplaceOp, Head(old(store.replies))))
      ensures task.Returned? && task.value != null ==> fresh(task.value)
    {
      if document == null {
        task := Threw(NullReference);
        return;
      }
      var region := RegionOf(client);
      document.SetRegion(region);
      var reply := store.Send(region, Replace(document.selfLink, document.body, document.eTag));
      task := Complete(ReplaceOp, reply);
    }

    /**
     * Deletes the document under If-Match on its entity tag; a Precondition
     * Failed or Not Found answer yields null. A null document throws before
     * anything is sent.
     */
    method DeleteDocument(client: Client, document: Document?, store: Store) returns (task: Completion<Document?>)
      requires |client.policy.preferredLocations| > 0
      modifies store
      ensures document == null ==> task == Threw(NullReference) && unchanged(store)
      ensures document != null ==>
        store.log == old(store.log) + [Call(RegionOf(client), Delete(document.selfLink, document.eTag))] &&
        store.replies == Tail(old(store.replies)) && store.feed == old(store.feed) &&
        Realizes(task, Classify(DeleteOp, Head(old(store.replies))))
      ensures task.Returned? && task.value != null ==> fresh(task.value)
    {
      if document == null {
        task := Threw(NullReference);
        return;
      }
      var reply := store.Send(RegionOf(client), Delete(document.selfLink, document.eTag));
      task := Complete(DeleteOp, reply);
    }

    /**
     * One round of GenerateInsertConflicts up to the awaited fan-out: draws a
     * document id in [0, 1000), then starts one insert of that id per client,
     * in client order.
     */
    method InsertRound(collection: string, store: Store, rng: RandomGen)
      returns (docId: int, tasks: seq<Completion<Document?>>, docs: seq<SampleDoc>, ghost sent: seq<Call>)
      requires Valid()
      modifies store, rng
      ensures 0 <= docId < 1000
      ensures |tasks| == |docs| == |sent| == |regionalClients|
      ensures forall i | 0 <= i < |docs| ::
        0 <= docs[i].userDefinedId < 10 && docs[i] == NewSampleDoc(docId, docs[i].userDefinedId, Region(i))
      ensures store.log == old(store.log) + sent
      ensures forall i | 0 <= i < |sent| :: sent[i] == Call(Region(i), Create(collection, docs[i]))
      ensures store.replies == Drop(old(store.replies), |regionalClients|) && store.feed == old(store.feed)
      ensures forall i | 0 <= i < |tasks| :: Agrees(tasks[i], Classify(CreateOp, Nth(old(store.replies), i)))
      ensures rng.local.Some? && rng.LocalDrawn() == old(rng.LocalDrawn()) + 1 + |regionalClients|
      ensures rng.global == old(rng.GlobalAfterDraw())
      ensures old(rng.local).Some? ==> rng.local.value.seed == old(rng.local).value.seed
    {
      docId := rng.Next(0, 1000);
      tasks, docs, sent := [], [], [];
      ghost var log0, replies0 := store.log, store.replies;
      ghost var regions := Regions();
      ghost var generator := rng.local.value;
      for k := 0 to |regionalClients|
        invariant |tasks| == k
        invariant rng.local.Some? && rng.LocalDrawn() == old(rng.LocalDrawn()) + 1 + k
        invariant rng.global == old(rng.GlobalAfterDraw()) && rng.local.value.seed == generator.seed
        invariant InsertedSoFar(collection, docId, regions, replies0, tasks, docs, sent)
        invariant store.log == log0 + sent
        invariant store.replies == Drop(replies0, k) && store.feed == old(store.feed)
      {
        DropStep(replies0, k);
        var task, doc := InsertDocument(regionalClients[k], collection, docId, store, rng);
        ghost var call := Call(regions[k], Create(collection, doc));
        InsertedSnoc(collection, docId, regions, replies0, tasks, docs, sent, task, doc);
        AppendAssoc(log0, sent, [call]);
        tasks, docs, sent := tasks + [task], docs + [doc], sent + [call];
      }
    }

    /**
     * The start of an update or delete round: draws a document id in
     * [0, 1000) and inserts it from the first client only.
     */
    method Seed(collection: string, store: Store, rng: RandomGen)
      returns (docId: int, seed: Completion<Document?>, inserted: Option<SampleDoc>)
      requires Valid()
      modifies store, rng
      ensures 0 <= docId < 1000
      ensures |regionalClients| == 0 ==> seed == Threw(ArgumentOutOfRange) && inserted.None? && unchanged(store)
      ensures |regionalClients| > 0 ==>
        inserted.Some? && 0 <= inserted.value.userDefinedId < 10 &&
        inserted.value == NewSampleDoc(docId, inserted.value.userDefinedId, Region(0)) &&
        store.log == old(store.log) + [Call(Region(0), Create(collection, inserted.value))] &&
        store.replies == Tail(old(store.replies)) && store.feed == old(store.feed) &&
        Realizes(seed, Classify(CreateOp, Head(old(store.replies))))
      ensures seed.Returned? && seed.value != null ==> fresh(seed.value)
      ensures rng.local.Some? && rng.LocalDrawn() == old(rng.LocalDrawn()) + (if |regionalClients| > 0 then 2 else 1)
      ensures rng.global == old(rng.GlobalAfterDraw())
      ensures old(rng.local).Some? ==> rng.local.value.seed == old(rng.local).value.seed
    {
      docId := rng.Next(0, 1000);
      if |regionalClients| == 0 {
        seed, inserted := Threw(ArgumentOutOfRange), None;
        return;
      }
      var doc;
      seed, doc := InsertDocument(regionalClients[0], collection, docId, store, rng);
      inserted := Some(doc);
    }
    /**
     * The update fan-out: every client, in client order, sets the shared
     * document's region to its own and replaces it under If-Match on the
     * document's entity tag, which the region change leaves as it was.
     */
    method UpdateFanOut(conflictDoc: Document?, store: Store)
      returns (tasks: seq<Completion<Document?>>, ghost sent: seq<Call>)
      requires Valid()
      modifies conflictDoc, store
      ensures |tasks| == |regionalClients| && store.feed == old(store.feed)
      ensures store.log == old(store.log) + sent
      ensures conflictDoc == null ==>
        unchanged(store) && sent == [] && forall i | 0 <= i < |tasks| :: tasks[i] == Threw(NullReference)
      ensures conflictDoc != null ==>
        var r0 := old(conflictDoc.Value());
        conflictDoc.eTag == r0.eTag && conflictDoc.selfLink == r0.selfLink &&
        conflictDoc.body == (if |regionalClients| > 0 then r0.body.(region := Region(|regionalClients| - 1)) else r0.body) &&
        |sent| == |regionalClients| &&
        (forall i | 0 <= i < |sent| :: sent[i] == Call(Region(i), FanOutRequest(ReplaceOp, r0, Region(i)))) &&
        store.replies == Drop(old(store.replies), |regionalClients|)
      ensures conflictDoc != null ==> forall i | 0 <= i < |tasks| ::
        Agrees(tasks[i], Classify(ReplaceOp, Nth(old(store.replies), i)))
    {
      tasks, sent := [], [];
      ghost var log0, replies0, regions := store.log, store.replies, Regions();
      ghost var r0 := if conflictDoc != null then conflictDoc.Value() else Resource(SampleDoc("", "", "", "", 0, ""), "", "");
      ghost var plan := seq(|regionalClients|, _ => ReplaceOp);
      for i := 0 to |regionalClients|
        invariant |tasks| == i && store.feed == old(store.feed)
        invariant store.log == log0 + sent
        invariant conflictDoc == null ==>
          unchanged(store) && sent == [] && forall j | 0 <= j < i :: tasks[j] == Threw(NullReference)
        invariant conflictDoc != null ==>
          conflictDoc.eTag == r0.eTag && conflictDoc.selfLink == r0.selfLink &&
          conflictDoc.body == (if i > 0 then r0.body.(region := regions[i - 1]) else r0.body)
        invariant conflictDoc != null ==>
          FannedOutSoFar(plan, r0, regions, replies0, tasks, sent) && store.replies == Drop(replies0, i)
      {
        DropStep(replies0, i);
        var task := UpdateDocument(regionalClients[i], conflictDoc, store);
        if conflictDoc != null {
          ghost var call := Call(regions[i], FanOutRequest(plan[i], r0, regions[i]));
          FannedOutSnoc(plan, r0, regions, replies0, tasks, sent, task);
          AppendAssoc(log0, sent, [call]);
          sent := sent + [call];
        }
        tasks := tasks + [task];
      }
    }

    /**
     * The delete fan-out: a flag that starts at Delete and flips after every
     * client gives each client, in client order, a Delete or an Update of the
     * shared document, both under If-Match on its entity tag.
     */
    method DeleteFanOut(conflictDoc: Document?, store: Store)
      returns (tasks: seq<Completion<Document?>>, ghost sent: seq<Call>)
      requires Valid()
      modifies conflictDoc, store
      ensures |tasks| == |regionalClients| && store.feed == old(store.feed)
      ensures store.log == old(store.log) + sent
      ensures conflictDoc == null ==>
        unchanged(store) && sent == [] && forall i | 0 <= i < |tasks| :: tasks[i] == Threw(NullReference)
      ensures conflictDoc != null ==>
        var r0 := old(conflictDoc.Value());
        var plan := TogglePlan(true, |regionalClients|);
        conflictDoc.eTag == r0.eTag && conflictDoc.selfLink == r0.selfLink &&
        conflictDoc.body ==
          (if |regionalClients| >= 2 then r0.body.(region := Region(LastUpdater(|regionalClients|))) else r0.body) &&
        |sent| == |regionalClients| &&
        (forall i | 0 <= i < |sent| :: sent[i] == Call(Region(i), FanOutRequest(plan[i], r0, Region(i)))) &&
        store.replies == Drop(old(store.replies), |regionalClients|)
      ensures conflictDoc != null ==>
        var plan := TogglePlan(true, |regionalClients|);
        forall i | 0 <= i < |tasks| :: Agrees(tasks[i], Classify(plan[i], Nth(old(store.replies), i)))
    {
      tasks, sent := [], [];
      ghost var log0, replies0, regions := store.log, store.replies, Regions();
      ghost var r0 := if conflictDoc != null then conflictDoc.Value() else Resource(SampleDoc("", "", "", "", 0, ""), "", "");
      ghost var plan := TogglePlan(true, |regionalClients|);
      var isDeleteTask := true;
      for i := 0 to |regionalClients|
        invariant |tasks| == i && store.feed == old(store.feed)
        invariant isDeleteTask == (i % 2 == 0)
        invariant store.log == log0 + sent
        invariant conflictDoc == null ==>
          unchanged(store) && sent == [] && forall j | 0 <= j < i :: tasks[j] == Threw(NullReference)
        invariant conflictDoc != null ==>
          conflictDoc.eTag == r0.eTag && conflictDoc.selfLink == r0.selfLink &&
          conflictDoc.body == (if i >= 2 then r0.body.(region := regions[LastUpdater(i)]) else r0.body)
        invariant conflictDoc != null ==>
          FannedOutSoFar(plan, r0, regions, replies0, tasks, sent) && store.replies == Drop(replies0, i)
      {
        DropStep(replies0, i);
        TogglePlanAt(true, |regionalClients|, i);
        LastUpdaterNext(i);
        var task;
        if isDeleteTask {
          task := DeleteDocument(regionalClients[i], conflictDoc, store);
          isDeleteTask := false;
        } else {
          task := UpdateDocument(regionalClients[i], conflictDoc, store);
          isDeleteTask := true;
        }
        if conflictDoc != null {
          ghost var call := Call(regions[i], FanOutRequest(plan[i], r0, regions[i]));
          FannedOutSnoc(plan, r0, regions, replies0, tasks, sent, task);
          AppendAssoc(log0, sent, [call]);
          sent := sent + [call];
        }
        tasks := tasks + [task];
      }
    }

    /**
     * The scan after a delete round: for each result that is a document, in
     * order, reads the conflict feed through the first client, and stops at
     * the first read that finds entries.
     */
    method CheckConflictFeed(collection: string, results: seq<Document?>, store: Store) returns (scan: ScanEnd)
      requires Valid() && |regionalClients| > 0
      modifies store
      ensures scan == ScanFeed(Committed(results), old(store.feed))
      ensures store.feed == Drop(old(store.feed), scan.feedReads) && store.replies == old(store.replies)
      ensures var sent := scan.feedReads + (if scan.Stalled? then 1 else 0);
        |store.log| == |old(store.log)| + sent && store.log[..|old(store.log)|] == old(store.log) &&
        forall k | |old(store.log)| <= k < |store.log| :: store.log[k] == Call(Region(0), ReadConflicts(collection))
    {
      ghost var committed, feed0, log0 := Committed(results), store.feed, store.log;
      var feedReads := 0;
      var i := 0;
      while i < |results|
        invariant 0 <= i <= |results| && feedReads <= |feed0|
        invariant store.feed == feed0[feedReads..] && store.replies == old(store.replies)
        invariant ScanFeed(committed, feed0) == Shift(ScanFeed(committed[i..], feed0[feedReads..]), feedReads)
        invariant |store.log| == |log0| + feedReads && store.log[..|log0|] == log0
        invariant forall k | |log0| <= k < |store.log| :: store.log[k] == Call(Region(0), ReadConflicts(collection))
      {
        assert committed[i..][1..] == committed[i + 1..];
        if results[i] != null {
          var count := store.ReadConflictFeed(Region(0), collection);
          if count.None? {
            return Stalled(feedReads);
          }
          assert feed0[feedReads..][1..] == feed0[feedReads + 1..];
          feedReads := feedReads + 1;
          if count.value > 0 {
            return Confirmed(feedReads);
          }
        }
        i := i + 1;
      }
      scan := Unconfirmed(feedReads);
    }

    /**
     * GenerateInsertConflicts: after the first key, runs insert rounds; after
     * each round the next key decides: 'Y' or 'y' runs another, any other
     * key ends the loop.
     */
    method GenerateInsertConflicts(collection: string, store: Store, rng: RandomGen, keys: seq<char>)
      returns (end: CampaignEnd, ghost created: seq<Call>)
      requires Valid()
      modifies store, rng
      ensures end == InsertCampaign(|regionalClients|, old(store.replies), keys)
      ensures |keys| == 0 <==> end == Blocked(0)
      ensures |keys| > 0 ==> 1 <= end.rounds <= 1 + LeadingYes(keys[1..])
      ensures end.Ended? ==> end.rounds == 1 + LeadingYes(keys[1..]) && end.rounds < |keys|
      ensures store.log == old(store.log) + created && CreatesInto(collection, created)
      ensures |created| == InsertCampaignSent(|regionalClients|, old(store.replies), keys)
      ensures store.replies == InsertCampaignLeft(|regionalClients|, old(store.replies), keys)
      ensures store.feed == old(store.feed)
    {
      created := [];
      if |keys| == 0 {
        InsertCampaignKeys(|regionalClients|, store.replies, keys);
        return Blocked(0), created;
      }
      var next := 1;
      var rounds := 0;
      var isConflicts := false;
      while !isConflicts
        invariant 1 <= next <= |keys| && rounds == next - 1
        invariant store.log == old(store.log) + created && CreatesInto(collection, created)
        invariant store.feed == old(store.feed)
        invariant InsertCampaignSent(|regionalClients|, old(store.replies), keys) ==
          |created| + InsertRoundsSent(|regionalClients|, store.replies, keys, next)
        invariant InsertCampaign(|regionalClients|, old(store.replies), keys) ==
          InsertRounds(|regionalClients|, store.replies, keys, next)
        invariant InsertCampaignLeft(|regionalClients|, old(store.replies), keys) ==
          InsertRoundsLeft(|regionalClients|, store.replies, keys, next)
        decreases |keys| - next
      {
        ghost var replies := store.replies;
        var docId, tasks, docs, sent := InsertRound(collection, store, rng);
        InsertRoundsStep(|regionalClients|, replies, keys, next, tasks);
        InsertRoundsLeftStep(|regionalClients|, replies, keys, next, tasks);
        assert CreatesInto(collection, sent);
        CreatesIntoAppend(collection, created, sent);
        AppendAssoc(old(store.log), created, sent);
        created := created + sent;
        rounds := rounds + 1;
        var insertedDocuments := WhenAll(tasks);
        if insertedDocuments.Pending? {
          InsertCampaignKeys(|regionalClients|, old(store.replies), keys);
          return Blocked(rounds), created;
        }
        if insertedDocuments.Threw? {
          InsertCampaignKeys(|regionalClients|, old(store.replies), keys);
          return Aborted(insertedDocuments.error, rounds), created;
        }
        if next == |keys| {
          InsertCampaignKeys(|regionalClients|, old(store.replies), keys);
          return Blocked(rounds), created;
        }
        var key := keys[next];
        next := next + 1;
        if IsYes(key) {
          isConflicts := false;
        } else {
          isConflicts := true;
          InsertCampaignKeys(|regionalClients|, old(store.replies), keys);
          return Ended(rounds), created;
        }
      }
    }

    /**
     * One round of GenerateUpdateConflicts up to its awaited join: seeds a
     * new document from the first client, then every client replaces it.
     */
    method UpdateRound(collection: string, store: Store, rng: RandomGen)
      returns (updatedDocuments: Completion<seq<Document?>>, ghost docId: int, ghost sent: seq<Call>)
      requires Valid()
      modifies store, rng
      ensures SameShape(updatedDocuments, UpdateJoin(|regionalClients|, old(store.replies)))
      ensures updatedDocuments.Returned? ==> store.replies == Drop(Tail(old(store.replies)), |regionalClients|)
      ensures store.feed == old(store.feed) && store.log == old(store.log) + sent && 0 <= docId < 1000
      ensures |regionalClients| == 0 ==> sent == [] && store.replies == old(store.replies)
      ensures |regionalClients| > 0 ==>
        |sent| > 0 && sent[0].region == Region(0) && sent[0].request.Create? &&
        sent[0].request == Create(collection, NewSampleDoc(docId, sent[0].request.doc.userDefinedId, Region(0))) &&
        0 <= sent[0].request.doc.userDefinedId < 10
      ensures |regionalClients| > 0 ==>
        var head := Head(old(store.replies));
        var plan := Uniform(ReplaceOp, |regionalClients|);
        if head.Some? && head.value.Ok? then
          |sent| == 1 + |regionalClients| && store.replies == Drop(Tail(old(store.replies)), |regionalClients|) &&
          forall i | 0 <= i < |regionalClients| ::
            sent[1..][i] == Call(Region(i), FanOutRequest(plan[i], head.value.resource, Region(i)))
        else
          |sent| == 1 && store.replies == Tail(old(store.replies))
    {
      ghost var replies, log0 := store.replies, store.log;
      var documentId, conflictDoc, inserted := Seed(collection, store, rng);
      docId := documentId;
      sent := store.log[|log0|..];
      if conflictDoc.Pending? {
        return Pending, docId, sent;
      }
      if conflictDoc.Threw? {
        return Threw(conflictDoc.error), docId, sent;
      }
      var updateTask, fanned := UpdateFanOut(conflictDoc.value, store);
      AppendAssoc(log0, sent, fanned);
      sent := sent + fanned;
      if conflictDoc.value == null {
        WhenAllNullSeed(updateTask);
      } else {
        WhenAllSameShape(updateTask, RoundEnds(Uniform(ReplaceOp, |regionalClients|), Tail(replies)));
        JoinIsWhenAll(Uniform(ReplaceOp, |regionalClients|), Tail(replies));
      }
      updatedDocuments := WhenAll(updateTask);
    }

    /**
     * GenerateUpdateConflicts: after the first key, runs update rounds; after
     * each round the next key decides: 'Y' or 'y' runs another, any other
     * key ends the loop.
     */
    method GenerateUpdateConflicts(collection: string, store: Store, rng: RandomGen, keys: seq<char>)
      returns (end: CampaignEnd)
      requires Valid()
      modifies store, rng
      ensures end == UpdateCampaign(|regionalClients|, old(store.replies), keys)
      ensures |keys| == 0 <==> end == Blocked(0)
      ensures |keys| > 0 ==> 1 <= end.rounds <= 1 + LeadingYes(keys[1..])
      ensures end.Ended? ==> end.rounds == 1 + LeadingYes(keys[1..]) && end.rounds < |keys|
      ensures |regionalClients| == 0 && |keys| > 0 ==> end == Aborted(ArgumentOutOfRange, 1)
    {
      if |keys| == 0 {
        UpdateCampaignKeys(|regionalClients|, store.replies, keys);
        return Blocked(0);
      }
      var next := 1;
      var rounds := 0;
      var isConflicts := false;
      while !isConflicts
        invariant 1 <= next <= |keys| && rounds == next - 1
        invariant UpdateCampaign(|regionalClients|, old(store.replies), keys) ==
          UpdateRounds(|regionalClients|, store.replies, keys, next)
        decreases |keys| - next
      {
        ghost var replies := store.replies;
        var updatedDocuments, docId, sent := UpdateRound(collection, store, rng);
        UpdateRoundsStep(|regionalClients|, replies, keys, next, updatedDocuments);
        rounds := rounds + 1;
        if updatedDocuments.Pending? {
          UpdateCampaignKeys(|regionalClients|, old(store.replies), keys);
          return Blocked(rounds);
        }
        if updatedDocuments.Threw? {
          UpdateCampaignKeys(|regionalClients|, old(store.replies), keys);
          return Aborted(updatedDocuments.error, rounds);
        }
        if next == |keys| {
          UpdateCampaignKeys(|regionalClients|, old(store.replies), keys);
          return Blocked(rounds);
        }
        var key := keys[next];
        next := next + 1;
        if IsYes(key) {
          isConflicts := false;
        } else {
          isConflicts := true;
          UpdateCampaignKeys(|regionalClients|, old(store.replies), keys);
          return Ended(rounds);
        }
      }
    }

    /**
     * One round of GenerateDeleteConflicts up to its awaited join: seeds a
     * new document from the first client, then the clients alternately
     * delete and replace it.
     */
    method DeleteRound(collection: string, store: Store, rng: RandomGen)
      returns (deletedDocuments: Completion<seq<Document?>>, ghost docId: int, ghost sent: seq<Call>)
      requires Valid()
      modifies store, rng
      ensures SameShape(deletedDocuments, DeleteJoin(|regionalClients|, old(store.replies)))
      ensures deletedDocuments.Returned? ==> store.replies == Drop(Tail(old(store.replies)), |regionalClients|)
      ensures store.feed == old(store.feed) && store.log == old(store.log) + sent && 0 <= docId < 1000
      ensures |regionalClients| == 0 ==> sent == [] && store.replies == old(store.replies)
      ensures |regionalClients| > 0 ==>
        |sent| > 0 && sent[0].region == Region(0) && sent[0].request.Create? &&
        sent[0].request == Create(collection, NewSampleDoc(docId, sent[0].request.doc.userDefinedId, Region(0))) &&
        0 <= sent[0].request.doc.userDefinedId < 10
      ensures |regionalClients| > 0 ==>
        var head := Head(old(store.replies));
        var plan := TogglePlan(true, |regionalClients|);
        if head.Some? && head.value.Ok? then
          |sent| == 1 + |regionalClients| && store.replies == Drop(Tail(old(store.replies)), |regionalClients|) &&
          forall i | 0 <= i < |regionalClients| ::
            sent[1..][i] == Call(Region(i), FanOutRequest(plan[i], head.value.resource, Region(i)))
        else
          |sent| == 1 && store.replies == Tail(old(store.replies))
    {
      ghost var replies, log0 := store.replies, store.log;
      var documentId, conflictDoc, inserted := Seed(collection, store, rng);
      docId := documentId;
      sent := store.log[|log0|..];
      if conflictDoc.Pending? {
        return Pending, docId, sent;
      }
      if conflictDoc.Threw? {
        return Threw(conflictDoc.error), docId, sent;
      }
      var deleteTask, fanned := DeleteFanOut(conflictDoc.value, store);
      AppendAssoc(log0, sent, fanned);
      sent := sent + fanned;
      if conflictDoc.value == null {
        WhenAllNullSeed(deleteTask);
      } else {
        WhenAllSameShape(deleteTask, RoundEnds(TogglePlan(true, |regionalClients|), Tail(replies)));
        JoinIsWhenAll(TogglePlan(true, |regionalClients|), Tail(replies));
      }
      deletedDocuments := WhenAll(deleteTask);
    }

    /**
     * GenerateDeleteConflicts: after the first key, runs delete rounds until
     * a round's scan of its results finds entries in the conflict feed.
     */
    method GenerateDeleteConflicts(collection: string, store: Store, rng: RandomGen, keys: seq<char>)
      returns (end: CampaignEnd)
      requires Valid()
      modifies store, rng
      ensures end == DeleteCampaign(|regionalClients|, old(store.replies), old(store.feed), keys)
      ensures |keys| == 0 <==> end == Blocked(0)
      ensures |regionalClients| == 0 && |keys| > 0 ==> end == Aborted(ArgumentOutOfRange, 1)
    {
      DeleteCampaignKeys(|regionalClients|, store.replies, store.feed, keys);
      if |keys| == 0 {
        return Blocked(0);
      }
      var rounds := 0;
      var isConflicts := false;
      while !isConflicts
        invariant DeleteCampaign(|regionalClients|, old(store.replies), old(store.feed), keys) ==
          if isConflicts then Ended(rounds) else DeleteRounds(|regionalClients|, store.replies, store.feed, rounds)
        decreases |store.replies|
      {
        var deletedDocuments, docId, sent := DeleteRound(collection, store, rng);
        rounds := rounds + 1;
        if deletedDocuments.Pending? {
          return Blocked(rounds);
        }
        if deletedDocuments.Threw? {
          return Aborted(deletedDocuments.error, rounds);
        }
        var scan := CheckConflictFeed(collection, deletedDocuments.value, store);
        if scan.Stalled? {
          return Blocked(rounds);
        }
        if scan.Confirmed? {
          isConflicts := true;
        }
      }
      return Ended(rounds);
    }
  }
}
