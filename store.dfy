/**
 * The multi-region document store as the conflict generator sees it. The
 * store itself (replication, arbitration, the conflict feed) is external:
 * its answers are given in advance, one per request, in the order the
 * requests are issued, and every request sent is recorded.
 */
module DocumentStore {
  import opened Wrappers
  import opened Documents

  /** 404 Not Found, section 15.5.5 of RFC 9110. */
  const StatusNotFound: int := 404
  /** 409 Conflict, section 15.5.10 of RFC 9110. */
  const StatusConflict: int := 409
  /** 412 Precondition Failed, section 15.5.13 of RFC 9110. */
  const StatusPreconditionFailed: int := 412

  /** The SDK calls the generator makes. ifMatch is the If-Match entity tag (section 13.1.1 of RFC 9110). */
  datatype Request =
    | Create(collection: string, doc: SampleDoc)
    | Replace(selfLink: string, doc: SampleDoc, ifMatch: string)
    | Delete(selfLink: string, ifMatch: string)
    | ReadConflicts(collection: string)

  /** A request together with the region of the client that sent it. */
  datatype Call = Call(region: string, request: Request)

  /** The answer to a create, replace or delete: the stored document, or a DocumentClientException's status. */
  datatype Reply = Ok(resource: Resource) | Failed(status: int)

  function Head<T>(s: seq<T>): (h: Option<T>)
    ensures h.None? <==> s == []
    ensures h.Some? ==> h.value == s[0]
  {
    if s == [] then None else Some(s[0])
  }

  function Tail<T>(s: seq<T>): (t: seq<T>)
    ensures s == [] ==> t == []
    ensures s != [] ==> t == s[1..]
  {
    if s == [] then [] else s[1..]
  }

  /** The answer the k-th request from now receives, if the store gives one. */
  function Nth<T>(s: seq<T>, k: nat): (h: Option<T>)
    ensures h.None? <==> |s| <= k
    ensures h.Some? ==> h.value == s[k]
  {
    if k < |s| then Some(s[k]) else None
  }

  /** What is left of the answers once k requests have taken theirs. */
  function Drop<T>(s: seq<T>, k: nat): (t: seq<T>)
    ensures |s| <= k ==> t == []
    ensures k < |s| ==> t == s[k..]
  {
    if k < |s| then s[k..] else []
  }

  /** Taking the next answer after k have been taken is taking the (k+1)-th. */
  lemma DropStep<T>(s: seq<T>, k: nat)
    ensures Head(Drop(s, k)) == Nth(s, k) && Tail(Drop(s, k)) == Drop(s, k + 1)
  {
    if k < |s| {
      assert Drop(s, k)[1..] == s[k + 1..];
    }
  }

  /** Taking a answers and then b more is taking a + b. */
  lemma DropDrop<T>(s: seq<T>, a: nat, b: nat)
    ensures Drop(Drop(s, a), b) == Drop(s, a + b)
  {
    if a + b < |s| {
      assert s[a..][b..] == s[a + b..];
    }
  }

  /** Appending one more request after a batch is appending the longer batch. */
  lemma AppendAssoc<T>(a: seq<T>, b: seq<T>, c: seq<T>)
    ensures (a + b) + c == a + (b + c)
  {
  }

  class Store {
    /** Answers still to be given to creates, replaces and deletes, in issue order. */
    var replies: seq<Reply>
    /** Entry counts still to be returned by conflict-feed reads, in issue order. */
    var feed: seq<nat>
    /** Every request sent so far. */
    var log: seq<Call>

    constructor (replies: seq<Reply>, feed: seq<nat>)
      ensures this.replies == replies && this.feed == feed && log == []
    {
      this.replies, this.feed, log := replies, feed, [];
    }

    /** Sends a create, replace or delete; None means the call never completes. */
    method Send(region: string, request: Request) returns (reply: Option<Reply>)
      requires !request.ReadConflicts?
      modifies this
      ensures log == old(log) + [Call(region, request)]
      ensures reply == Head(old(replies)) && replies == Tail(old(replies))
      ensures feed == old(feed)
    {
      log := log + [Call(region, request)];
      reply := Head(replies);
      replies := Tail(replies);
    }

    /** ReadConflictFeedAsync: the number of entries in the collection's conflict feed. */
    method ReadConflictFeed(region: string, collection: string) returns (count: Option<nat>)
      modifies this
      ensures log == old(log) + [Call(region, ReadConflicts(collection))]
      ensures count == Head(old(feed)) && feed == Tail(old(feed))
      ensures replies == old(replies)
    {
      log := log + [Call(region, ReadConflicts(collection))];
      count := Head(feed);
      feed := Tail(feed);
    }
  }
}
