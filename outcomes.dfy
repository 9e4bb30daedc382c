/**
 * How one store call ends for the generator (the catch blocks of
 * InsertDocument, UpdateDocument and DeleteDocument), and how awaiting all
 * of a round's tasks together ends (Task.WhenAll).
 */
module Outcomes {
  import opened Wrappers
  import opened Documents
  import opened DocumentStore

  /** The exceptions that can escape an attempt or a round. */
  datatype Error =
    | StoreError(status: int)   // a DocumentClientException rethrown with its status
    | NullReference             // a member used on a null document
    | ArgumentOutOfRange        // regionalClients[0] on an empty List<T>

  /** A task's end: it returned, it threw, or it is still waiting for the store. */
  datatype Completion<T> = Returned(value: T) | Threw(error: Error) | Pending

  datatype OpKind = CreateOp | ReplaceOp | DeleteOp

  /**
   * The statuses that mean another region's write already committed and
   * replicated: Conflict for an insert; Precondition Failed (the If-Match
   * entity tag is stale) or Not Found (the document was deleted) for a
   * conditional replace or delete.
   */
  function RaceStatuses(kind: OpKind): set<int> {
    if kind == CreateOp then {StatusConflict}
    else {StatusPreconditionFailed, StatusNotFound}
  }

  /**
   * An attempt's end given the store's reply: the stored document when a
   * create or replace succeeds, no document (the source's null) when the
   * race was lost or when a delete succeeds (a delete's response carries
   * only its status), the status rethrown otherwise, and Pending while no
   * reply comes.
   */
  function Classify(kind: OpKind, reply: Option<Reply>): (c: Completion<Option<Resource>>)
    ensures c.Pending? <==> reply.None?
    ensures c.Returned? && c.value.Some? <==> reply.Some? && reply.value.Ok? && kind != DeleteOp
    ensures c.Returned? && c.value.Some? ==> c.value.value == reply.value.resource
    ensures c == Returned(None) <==>
      reply.Some? && ((reply.value.Failed? && reply.value.status in RaceStatuses(kind)) ||
                      (reply.value.Ok? && kind == DeleteOp))
    ensures c.Threw? <==> reply.Some? && reply.value.Failed? && reply.value.status !in RaceStatuses(kind)
    ensures c.Threw? ==> c.error == StoreError(reply.value.status)
  {
    match reply
    case None => Pending
    case Some(Ok(r)) => if kind == DeleteOp then Returned(None) else Returned(Some(r))
    case Some(Failed(status)) =>
      if kind == CreateOp && status == StatusConflict then Returned(None)
      else if kind != CreateOp && (status == StatusPreconditionFailed || status == StatusNotFound) then Returned(None)
      else Threw(StoreError(status))
  }

  /**
   * The shape of the Document? an attempt task yields agrees with its
   * classified end: still waiting, the same exception, null exactly when
   * the race was lost, and some document when the store returned one.
   */
  predicate Agrees(t: Completion<Document?>, c: Completion<Option<Resource>>) {
    match c
    case Pending => t.Pending?
    case Threw(e) => t == Threw(e)
    case Returned(None) => t == Returned(null)
    case Returned(Some(_)) => t.Returned? && t.value != null
  }

  /** Agrees, and a returned document holds what the store returned. */
  ghost predicate Realizes(t: Completion<Document?>, c: Completion<Option<Resource>>)
    reads if t.Returned? && t.value != null then {t.value} else {}
  {
    Agrees(t, c) && (c.Returned? && c.value.Some? ==> t.value.Value() == c.value.value)
  }

  /**
   * Awaiting Task.WhenAll over tasks: it completes only once every task has;
   * it then rethrows the exception of the first faulted task in task order,
   * or yields every task's result in task order.
   */
  function WhenAll<T>(tasks: seq<Completion<T>>): (r: Completion<seq<T>>)
    ensures r.Pending? <==> exists i | 0 <= i < |tasks| :: tasks[i].Pending?
    ensures r.Returned? <==> forall i | 0 <= i < |tasks| :: tasks[i].Returned?
    ensures r.Returned? ==> |r.value| == |tasks| && forall i | 0 <= i < |tasks| :: r.value[i] == tasks[i].value
    ensures r.Threw? ==> exists i | 0 <= i < |tasks| ::
      tasks[i] == Threw(r.error) && forall j | 0 <= j < i :: !tasks[j].Threw?
  {
    if tasks == [] then Returned([])
    else
      var rest := WhenAll(tasks[1..]);
      if tasks[0].Pending? || rest.Pending? then Pending
      else if tasks[0].Threw? then Threw(tasks[0].error)
      else if rest.Threw? then rest
      else Returned([tasks[0].value] + rest.value)
  }

  /** The classified ends of a round whose attempt i is plan[i] and gets the i-th answer. */
  function RoundEnds(plan: seq<OpKind>, replies: seq<Reply>): (cs: seq<Completion<Option<Resource>>>)
    ensures |cs| == |plan| && forall i | 0 <= i < |plan| :: cs[i] == Classify(plan[i], Nth(replies, i))
  {
    seq(|plan|, i requires 0 <= i < |plan| => Classify(plan[i], Nth(replies, i)))
  }

  /**
   * Awaiting a round's Tasks ends as awaiting their classified ends
   * does: pending together, throwing the same error, and returning with a
   * document exactly where the store returned a resource.
   */
  lemma WhenAllAgrees(tasks: seq<Completion<Document?>>, cs: seq<Completion<Option<Resource>>>)
    requires |tasks| == |cs| && forall i | 0 <= i < |tasks| :: Agrees(tasks[i], cs[i])
    ensures WhenAll(tasks).Pending? == WhenAll(cs).Pending?
    ensures WhenAll(tasks).Threw? == WhenAll(cs).Threw?
    ensures WhenAll(tasks).Threw? ==> WhenAll(tasks).error == WhenAll(cs).error
    ensures WhenAll(tasks).Returned? ==>
      forall i | 0 <= i < |tasks| :: (WhenAll(tasks).value[i] != null) == WhenAll(cs).value[i].Some?
  {
    var jt, jc := WhenAll(tasks), WhenAll(cs);
    assert forall i | 0 <= i < |tasks| ::
      tasks[i].Pending? == cs[i].Pending? && tasks[i].Returned? == cs[i].Returned? &&
      (tasks[i].Threw? ==> tasks[i] == Threw(cs[i].error));
    if jt.Threw? {
      var i :| 0 <= i < |tasks| && tasks[i] == Threw(jt.error) && forall j | 0 <= j < i :: !tasks[j].Threw?;
      var k :| 0 <= k < |cs| && cs[k] == Threw(jc.error) && forall j | 0 <= j < k :: !cs[j].Threw?;
      assert !(i < k) && !(k < i);
    }
  }
}
