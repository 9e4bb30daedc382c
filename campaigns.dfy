/**
 * What each conflict campaign does, as functions of what it is given: the
 * number of clients n, the answers the store gives to creates, replaces and
 * deletes in the order they are issued, the entry counts its conflict-feed
 * reads return, and the operator's keys.
 */
module Campaigns {
  import opened Wrappers
  import opened Documents
  import opened DocumentStore
  import opened Outcomes
  import opened Rules

  /**
   * How a campaign ends after rounds rounds were begun: its loop finished,
   * an exception escaped, or it waits for a key or a store answer that is
   * not given.
   */
  datatype CampaignEnd = Ended(rounds: nat) | Aborted(error: Error, rounds: nat) | Blocked(rounds: nat)

  /** The same operation for each of n clients. */
  function Uniform(kind: OpKind, n: nat): (plan: seq<OpKind>)
    ensures |plan| == n && forall i | 0 <= i < n :: plan[i] == kind
  {
    seq(n, _ => kind)
  }

  /** Which entries of an awaited Document[] are documents rather than null. */
  function Committed(results: seq<Document?>): (c: seq<bool>)
    ensures |c| == |results| && forall i | 0 <= i < |results| :: c[i] == (results[i] != null)
  {
    seq(|results|, i requires 0 <= i < |results| => results[i] != null)
  }

  /** Which classified ends of an awaited round hold a stored resource. */
  function CommittedAnswers(values: seq<Option<Resource>>): (c: seq<bool>)
    ensures |c| == |values| && forall i | 0 <= i < |values| :: c[i] == values[i].Some?
  {
    seq(|values|, i requires 0 <= i < |values| => values[i].Some?)
  }

  /**
   * The awaited join of a round whose attempt i is plan[i] and gets the
   * i-th answer, taken answer by answer; JoinIsWhenAll shows it is
   * Task.WhenAll over the classified ends. A join that returns had an
   * answer for every attempt and yields one value per attempt.
   */
  function Join(plan: seq<OpKind>, replies: seq<Reply>): (j: Completion<seq<Option<Resource>>>)
    ensures j.Returned? ==> |j.value| == |plan| <= |replies|
    decreases |plan|
  {
    if plan == [] then Returned([])
    else
      var first := Classify(plan[0], Head(replies));
      var rest := Join(plan[1..], Tail(replies));
      if first.Pending? || rest.Pending? then Pending
      else if first.Threw? then Threw(first.error)
      else if rest.Threw? then rest
      else Returned([first.value] + rest.value)
  }

  lemma {:induction false} JoinIsWhenAll(plan: seq<OpKind>, replies: seq<Reply>)
    ensures Join(plan, replies) == WhenAll(RoundEnds(plan, replies))
    decreases |plan|
  {
    if plan != [] {
      JoinIsWhenAll(plan[1..], Tail(replies));
      var cs := RoundEnds(plan, replies);
      assert cs[1..] == RoundEnds(plan[1..], Tail(replies)) by {
        forall i | 0 <= i < |plan| - 1
          ensures cs[1..][i] == RoundEnds(plan[1..], Tail(replies))[i]
        {
          assert Nth(replies, i + 1) == Nth(Tail(replies), i);
        }
      }
      assert cs[0] == Classify(plan[0], Head(replies));
    }
  }

  /** A returned join holds a stored resource for attempt i only when that attempt, not a delete, succeeded. */
  lemma {:induction false} JoinCommitted(plan: seq<OpKind>, replies: seq<Reply>, i: nat)
    requires Join(plan, replies).Returned? && i < |plan| && Join(plan, replies).value[i].Some?
    ensures i < |replies| && replies[i].Ok? && plan[i] != DeleteOp
    decreases |plan|
  {
    if i > 0 {
      JoinCommitted(plan[1..], Tail(replies), i - 1);
      assert Tail(replies)[i - 1] == replies[i];
    }
  }

  /** A round every one of whose attempts gets an answer that succeeds or loses its race joins and returns. */
  lemma {:induction false} JoinAnswered(plan: seq<OpKind>, replies: seq<Reply>)
    requires |plan| <= |replies| && forall i | 0 <= i < |plan| :: AttemptAnswered(plan[i], replies[i])
    ensures Join(plan, replies).Returned?
    decreases |plan|
  {
    if plan != [] {
      assert AttemptAnswered(plan[0], replies[0]);
      forall i | 0 <= i < |plan| - 1 ensures AttemptAnswered(plan[1..][i], Tail(replies)[i]) {
        assert AttemptAnswered(plan[i + 1], replies[i + 1]);
      }
      JoinAnswered(plan[1..], Tail(replies));
    }
  }

  /** The answers r insert rounds of n creates each take. */
  function InsertTaken(n: nat, r: nat): nat {
    if r == 0 then 0 else InsertTaken(n, r - 1) + n
  }

  /**
   * The insert campaign from its round next on, where keys[next] is the key
   * read after that round: every round takes the next n answers, one per
   * client.
   */
  function InsertRounds(n: nat, replies: seq<Reply>, keys: seq<char>, next: nat): CampaignEnd
    requires 1 <= next <= |keys|
    decreases |keys| - next
  {
    var joined := Join(Uniform(CreateOp, n), replies);
    if joined.Pending? then Blocked(next)
    else if joined.Threw? then Aborted(joined.error, next)
    else if next == |keys| then Blocked(next)
    else if IsYes(keys[next]) then InsertRounds(n, Drop(replies, n), keys, next + 1)
    else Ended(next)
  }

  /** GenerateInsertConflicts: the first key starts the rounds. */
  function InsertCampaign(n: nat, replies: seq<Reply>, keys: seq<char>): CampaignEnd {
    if |keys| == 0 then Blocked(0) else InsertRounds(n, replies, keys, 1)
  }

  /**
   * The answers left once the insert rounds from next on have stopped: each
   * round they run takes the next n answers, whether or not its join returns.
   */
  function InsertRoundsLeft(n: nat, replies: seq<Reply>, keys: seq<char>, next: nat): seq<Reply>
    requires 1 <= next <= |keys|
    decreases |keys| - next
  {
    var joined := Join(Uniform(CreateOp, n), replies);
    if joined.Returned? && next < |keys| && IsYes(keys[next]) then InsertRoundsLeft(n, Drop(replies, n), keys, next + 1)
    else Drop(replies, n)
  }

  /** The answers GenerateInsertConflicts leaves to the store. */
  function InsertCampaignLeft(n: nat, replies: seq<Reply>, keys: seq<char>): seq<Reply> {
    if |keys| == 0 then replies else InsertRoundsLeft(n, replies, keys, 1)
  }

  /** The creates the insert rounds from next on send: n per round they run. */
  function InsertRoundsSent(n: nat, replies: seq<Reply>, keys: seq<char>, next: nat): nat
    requires 1 <= next <= |keys|
    decreases |keys| - next
  {
    var joined := Join(Uniform(CreateOp, n), replies);
    if joined.Returned? && next < |keys| && IsYes(keys[next]) then n + InsertRoundsSent(n, Drop(replies, n), keys, next + 1)
    else n
  }

  /** The creates GenerateInsertConflicts sends. */
  function InsertCampaignSent(n: nat, replies: seq<Reply>, keys: seq<char>): nat {
    if |keys| == 0 then 0 else InsertRoundsSent(n, replies, keys, 1)
  }

  /** The insert rounds from next on run at least that round. */
  lemma {:induction false} InsertRoundsRan(n: nat, replies: seq<Reply>, keys: seq<char>, next: nat)
    requires 1 <= next <= |keys|
    ensures next <= InsertRounds(n, replies, keys, next).rounds
    decreases |keys| - next
  {
    var joined := Join(Uniform(CreateOp, n), replies);
    if joined.Returned? && next < |keys| && IsYes(keys[next]) {
      InsertRoundsRan(n, Drop(replies, n), keys, next + 1);
    }
  }

  /** The insert rounds from next on that run through round r send n creates per round: InsertTaken(n, r + 1 - next). */
  lemma {:induction false} InsertRoundsSentTaken(n: nat, replies: seq<Reply>, keys: seq<char>, next: nat, r: nat)
    requires 1 <= next <= |keys| && r == InsertRounds(n, replies, keys, next).rounds
    ensures next <= r && InsertRoundsSent(n, replies, keys, next) == InsertTaken(n, r + 1 - next)
    decreases |keys| - next
  {
    InsertRoundsRan(n, replies, keys, next);
    var joined := Join(Uniform(CreateOp, n), replies);
    if joined.Returned? && next < |keys| && IsYes(keys[next]) {
      InsertRoundsSentTaken(n, Drop(replies, n), keys, next + 1, r);
      InsertTakenNext(n, r - next);
    } else {
      InsertTakenNext(n, 0);
    }
  }

  /** The insert rounds from next on that run through round r leave the answers after the first InsertTaken(n, r + 1 - next). */
  lemma {:induction false} InsertRoundsLeftTaken(n: nat, replies: seq<Reply>, keys: seq<char>, next: nat, r: nat)
    requires 1 <= next <= |keys| && r == InsertRounds(n, replies, keys, next).rounds
    ensures next <= r && InsertRoundsLeft(n, replies, keys, next) == Drop(replies, InsertTaken(n, r + 1 - next))
    decreases |keys| - next
  {
    InsertRoundsRan(n, replies, keys, next);
    var joined := Join(Uniform(CreateOp, n), replies);
    if joined.Returned? && next < |keys| && IsYes(keys[next]) {
      InsertRoundsLeftTaken(n, Drop(replies, n), keys, next + 1, r);
      DropDrop(replies, n, InsertTaken(n, r - next));
      InsertTakenNext(n, r - next);
    } else {
      InsertTakenNext(n, 0);
    }
  }

  /** One insert round whose tasks agree with the classified answers sends and leaves what InsertRoundsSent and InsertRoundsLeft prescribe. */
  lemma InsertRoundsLeftStep(n: nat, replies: seq<Reply>, keys: seq<char>, next: nat, tasks: seq<Completion<Document?>>)
    requires 1 <= next <= |keys| && |tasks| == n
    requires forall i | 0 <= i < n :: Agrees(tasks[i], Classify(CreateOp, Nth(replies, i)))
    ensures InsertRoundsLeft(n, replies, keys, next) ==
      if WhenAll(tasks).Returned? && next < |keys| && IsYes(keys[next]) then InsertRoundsLeft(n, Drop(replies, n), keys, next + 1)
      else Drop(replies, n)
    ensures InsertRoundsSent(n, replies, keys, next) ==
      if WhenAll(tasks).Returned? && next < |keys| && IsYes(keys[next]) then n + InsertRoundsSent(n, Drop(replies, n), keys, next + 1)
      else n
  {
    WhenAllAgrees(tasks, RoundEnds(Uniform(CreateOp, n), replies));
    JoinIsWhenAll(Uniform(CreateOp, n), replies);
  }

  /** r insert rounds of n creates take n answers r times. */
  lemma {:induction false} InsertTakenProduct(n: nat, r: nat)
    ensures InsertTaken(n, r) == n * r
  {
    if r > 0 {
      InsertTakenProduct(n, r - 1);
      assert n * r == n * (r - 1) + n;
    }
  }

  /** One more round takes n more answers. */
  lemma InsertTakenNext(n: nat, r: nat)
    ensures InsertTaken(n, r + 1) == n + InsertTaken(n, r)
  {
  }

  /**
   * GenerateInsertConflicts sends n creates per round it runs and leaves the
   * store the answers after those n per round.
   */
  lemma InsertCampaignTaken(n: nat, replies: seq<Reply>, keys: seq<char>)
    ensures InsertCampaignSent(n, replies, keys) == InsertTaken(n, InsertCampaign(n, replies, keys).rounds)
    ensures InsertCampaignLeft(n, replies, keys) == Drop(replies, InsertTaken(n, InsertCampaign(n, replies, keys).rounds))
  {
    if |keys| == 0 {
      if replies != [] {
        assert replies[0..] == replies;
      }
    } else {
      var r := InsertCampaign(n, replies, keys).rounds;
      InsertRoundsSentTaken(n, replies, keys, 1, r);
      InsertRoundsLeftTaken(n, replies, keys, 1, r);
    }
  }

  /**
   * What a round throws when its seed insert fails: 409 Conflict is a lost
   * race that leaves the seed null, so the first fan-out task throws
   * NullReference; any other status is rethrown.
   */
  function SeedThrew(status: int): (j: Completion<seq<Option<Resource>>>)
    ensures j.Threw?
    ensures j.error == NullReference <==> Classify(CreateOp, Some(Failed(status))) == Returned(None)
    ensures j.error != NullReference ==> Classify(CreateOp, Some(Failed(status))) == Threw(j.error)
  {
    if status == StatusConflict then Threw(NullReference) else Threw(StoreError(status))
  }

  /**
   * How the awaited join of one update round ends: regionalClients[0]
   * throws with no clients; the seed insert from the first client takes one
   * answer; a null seed makes every replace throw before it is sent;
   * otherwise the replaces take the next n answers.
   */
  function UpdateJoin(n: nat, replies: seq<Reply>): (j: Completion<seq<Option<Resource>>>)
    ensures j.Returned? ==> n > 0 && |replies| > 0 && replies[0].Ok?
  {
    if n == 0 then Threw(ArgumentOutOfRange)
    else
      var seed: Option<Reply> := Head(replies);
      match seed
      case None => Pending
      case Some(Failed(status)) => SeedThrew(status)
      case Some(Ok(_)) => Join(Uniform(ReplaceOp, n), Tail(replies))
  }

  /**
   * The update campaign from its round next on: every round takes one
   * answer for the seed and then n for the replaces.
   */
  function UpdateRounds(n: nat, replies: seq<Reply>, keys: seq<char>, next: nat): CampaignEnd
    requires 1 <= next <= |keys|
    decreases |keys| - next
  {
    var joined := UpdateJoin(n, replies);
    if joined.Pending? then Blocked(next)
    else if joined.Threw? then Aborted(joined.error, next)
    else if next == |keys| then Blocked(next)
    else if IsYes(keys[next]) then UpdateRounds(n, Drop(Tail(replies), n), keys, next + 1)
    else Ended(next)
  }

  /** One update round whose awaited join has the shape of the modelled one decides the campaign as UpdateRounds does. */
  lemma UpdateRoundsStep(n: nat, replies: seq<Reply>, keys: seq<char>, next: nat, t: Completion<seq<Document?>>)
    requires 1 <= next <= |keys| && SameShape(t, UpdateJoin(n, replies))
    ensures UpdateRounds(n, replies, keys, next) ==
      if t.Pending? then Blocked(next)
      else if t.Threw? then Aborted(t.error, next)
      else if next == |keys| then Blocked(next)
      else if IsYes(keys[next]) then UpdateRounds(n, Drop(Tail(replies), n), keys, next + 1)
      else Ended(next)
  {
  }

  /** GenerateUpdateConflicts: the first key starts the rounds. */
  function UpdateCampaign(n: nat, replies: seq<Reply>, keys: seq<char>): CampaignEnd {
    if |keys| == 0 then Blocked(0) else UpdateRounds(n, replies, keys, 1)
  }

  /**
   * How the awaited join of one delete round ends: as for an update round,
   * with client i deleting when i is even and replacing when i is odd.
   */
  function DeleteJoin(n: nat, replies: seq<Reply>): (j: Completion<seq<Option<Resource>>>)
    ensures j.Returned? ==> n > 0 && |replies| > n && replies[0].Ok? && |j.value| == n
  {
    if n == 0 then Threw(ArgumentOutOfRange)
    else
      var seed: Option<Reply> := Head(replies);
      match seed
      case None => Pending
      case Some(Failed(status)) => SeedThrew(status)
      case Some(Ok(_)) => Join(TogglePlan(true, n), Tail(replies))
  }

  /**
   * The delete campaign after done rounds: a round awaits its join, then
   * scans the conflict feed for the committed results. An unconfirmed scan
   * starts another round on the answers and feed counts that are left.
   */
  function DeleteRounds(n: nat, replies: seq<Reply>, feed: seq<nat>, done: nat): CampaignEnd
    decreases |replies|
  {
    var joined := DeleteJoin(n, replies);
    if joined.Pending? then Blocked(done + 1)
    else if joined.Threw? then Aborted(joined.error, done + 1)
    else match ScanFeed(CommittedAnswers(joined.value), feed)
      case Stalled(_) => Blocked(done + 1)
      case Confirmed(_) => Ended(done + 1)
      case Unconfirmed(k) => DeleteRounds(n, Drop(Tail(replies), n), Drop(feed, k), done + 1)
  }

  /** GenerateDeleteConflicts: the first key starts the rounds; later keys are not read. */
  function DeleteCampaign(n: nat, replies: seq<Reply>, feed: seq<nat>, keys: seq<char>): CampaignEnd {
    if |keys| == 0 then Blocked(0) else DeleteRounds(n, replies, feed, 0)
  }

  /**
   * An awaited Document[] ends as an awaited join of classified answers:
   * pending together, throwing the same error, or returning with a
   * document exactly where the store returned a resource.
   */
  predicate SameShape(t: Completion<seq<Document?>>, c: Completion<seq<Option<Resource>>>) {
    t.Pending? == c.Pending? && t.Threw? == c.Threw? && (t.Threw? ==> t.error == c.error) &&
    (t.Returned? ==> Committed(t.value) == CommittedAnswers(c.value))
  }

  lemma WhenAllSameShape(tasks: seq<Completion<Document?>>, cs: seq<Completion<Option<Resource>>>)
    requires |tasks| == |cs| && forall i | 0 <= i < |tasks| :: Agrees(tasks[i], cs[i])
    ensures SameShape(WhenAll(tasks), WhenAll(cs))
  {
    WhenAllAgrees(tasks, cs);
    if WhenAll(tasks).Returned? {
      assert Committed(WhenAll(tasks).value) == CommittedAnswers(WhenAll(cs).value);
    }
  }

  /** Every task of a fan-out on a null seed threw NullReference, so the join throws it. */
  lemma WhenAllNullSeed(tasks: seq<Completion<Document?>>)
    requires |tasks| > 0 && forall i | 0 <= i < |tasks| :: tasks[i] == Threw(NullReference)
    ensures WhenAll(tasks) == Threw(NullReference)
  {
  }

  /** One insert round, given its Tasks, whose shapes the round's answers classify. */
  lemma InsertRoundsStep(n: nat, replies: seq<Reply>, keys: seq<char>, next: nat, tasks: seq<Completion<Document?>>)
    requires 1 <= next <= |keys| && |tasks| == n
    requires forall i | 0 <= i < n :: Agrees(tasks[i], Classify(CreateOp, Nth(replies, i)))
    ensures var joined := WhenAll(tasks);
      InsertRounds(n, replies, keys, next) ==
        if joined.Pending? then Blocked(next)
        else if joined.Threw? then Aborted(joined.error, next)
        else if next == |keys| then Blocked(next)
        else if IsYes(keys[next]) then InsertRounds(n, Drop(replies, n), keys, next + 1)
        else Ended(next)
  {
    WhenAllAgrees(tasks, RoundEnds(Uniform(CreateOp, n), replies));
    JoinIsWhenAll(Uniform(CreateOp, n), replies);
  }

  /** Keys 1 .. next-1 were all 'Y' or 'y': at least that many are counted as leading. */
  lemma LeadingYesAtLeast(keys: seq<char>, next: nat)
    requires 1 <= next <= |keys| && forall k | 1 <= k < next :: IsYes(keys[k])
    ensures next - 1 <= LeadingYes(keys[1..])
  {
  }

  /** A further 'Y' or 'y' extends the answers so far. */
  lemma YesThrough(keys: seq<char>, next: nat)
    requires 1 <= next < |keys| && (forall k | 1 <= k < next :: IsYes(keys[k])) && IsYes(keys[next])
    ensures forall k | 1 <= k < next + 1 :: IsYes(keys[k])
  {
  }

  /**
   * The key rule for a campaign's end from round next on: it has begun
   * between next and 1 + (leading Y/y answers) rounds, and it ends its
   * loop only after exactly that many, before the keys run out.
   */
  predicate KeyRule(end: CampaignEnd, keys: seq<char>, next: nat) {
    0 < |keys| && next <= end.rounds <= 1 + LeadingYes(keys[1..]) &&
    (end.Ended? ==> end.rounds == 1 + LeadingYes(keys[1..]) && end.rounds < |keys|)
  }

  /** A campaign that stops in round next without ending its loop keeps the key rule. */
  lemma KeyRuleStopped(end: CampaignEnd, keys: seq<char>, next: nat)
    requires 1 <= next <= |keys| && forall k | 1 <= k < next :: IsYes(keys[k])
    requires end.rounds == next && !end.Ended?
    ensures KeyRule(end, keys, next)
  {
    LeadingYesAtLeast(keys, next);
  }

  /** A campaign whose loop ends at the first key that is not 'Y' or 'y' keeps the key rule. */
  lemma KeyRuleEnded(keys: seq<char>, next: nat)
    requires 1 <= next < |keys| && (forall k | 1 <= k < next :: IsYes(keys[k])) && !IsYes(keys[next])
    ensures KeyRule(Ended(next), keys, next)
  {
    assert keys[1..][next - 1] == keys[next];
    LeadingYesUnique(keys[1..], next - 1);
  }

  /** The key rule from a later round on implies it from this one. */
  lemma KeyRuleLater(end: CampaignEnd, keys: seq<char>, next: nat)
    requires KeyRule(end, keys, next + 1)
    ensures KeyRule(end, keys, next)
  {
  }

  /**
   * The insert rounds from next on, after next - 1 answers of 'Y' or 'y',
   * run to at most the round after the last leading one, and end their
   * loop exactly there.
   */
  lemma {:induction false} InsertRoundsKeys(n: nat, replies: seq<Reply>, keys: seq<char>, next: nat)
    requires 1 <= next <= |keys| && forall k | 1 <= k < next :: IsYes(keys[k])
    ensures KeyRule(InsertRounds(n, replies, keys, next), keys, next)
    decreases |keys| - next
  {
    var joined := Join(Uniform(CreateOp, n), replies);
    var end := InsertRounds(n, replies, keys, next);
    if joined.Pending? || joined.Threw? || next == |keys| {
      KeyRuleStopped(end, keys, next);
    } else if IsYes(keys[next]) {
      var rest := Drop(replies, n);
      assert end == InsertRounds(n, rest, keys, next + 1);
      YesThrough(keys, next);
      InsertRoundsKeys(n, rest, keys, next + 1);
      KeyRuleLater(end, keys, next);
    } else {
      assert end == Ended(next);
      KeyRuleEnded(keys, next);
    }
  }

  /**
   * GenerateInsertConflicts waits for the first key, then runs between 1
   * and 1 + (leading Y/y answers) rounds, and exactly that many when its
   * loop ends.
   */
  lemma InsertCampaignKeys(n: nat, replies: seq<Reply>, keys: seq<char>)
    ensures var end := InsertCampaign(n, replies, keys);
      (|keys| == 0 <==> end == Blocked(0)) &&
      (|keys| > 0 ==> 1 <= end.rounds <= 1 + LeadingYes(keys[1..])) &&
      (end.Ended? ==> end.rounds == 1 + LeadingYes(keys[1..]) && end.rounds < |keys|)
  {
    if |keys| > 0 {
      InsertRoundsKeys(n, replies, keys, 1);
    }
  }

  /** The update rounds obey the same key rule as the insert rounds. */
  lemma {:induction false} UpdateRoundsKeys(n: nat, replies: seq<Reply>, keys: seq<char>, next: nat)
    requires 1 <= next <= |keys| && forall k | 1 <= k < next :: IsYes(keys[k])
    ensures KeyRule(UpdateRounds(n, replies, keys, next), keys, next)
    decreases |keys| - next
  {
    var joined := UpdateJoin(n, replies);
    var end := UpdateRounds(n, replies, keys, next);
    if joined.Pending? || joined.Threw? || next == |keys| {
      KeyRuleStopped(end, keys, next);
    } else if IsYes(keys[next]) {
      var rest := Drop(Tail(replies), n);
      assert end == UpdateRounds(n, rest, keys, next + 1);
      YesThrough(keys, next);
      UpdateRoundsKeys(n, rest, keys, next + 1);
      KeyRuleLater(end, keys, next);
    } else {
      assert end == Ended(next);
      KeyRuleEnded(keys, next);
    }
  }

  /**
   * GenerateUpdateConflicts follows the insert campaign's key rule, and
   * with no clients its first round throws on regionalClients[0].
   */
  lemma UpdateCampaignKeys(n: nat, replies: seq<Reply>, keys: seq<char>)
    ensures var end := UpdateCampaign(n, replies, keys);
      (|keys| == 0 <==> end == Blocked(0)) &&
      (|keys| > 0 ==> 1 <= end.rounds <= 1 + LeadingYes(keys[1..])) &&
      (end.Ended? ==> end.rounds == 1 + LeadingYes(keys[1..]) && end.rounds < |keys|) &&
      (n == 0 && |keys| > 0 ==> end == Aborted(ArgumentOutOfRange, 1))
  {
    if |keys| > 0 {
      UpdateRoundsKeys(n, replies, keys, 1);
    }
  }

  /** Every delete round after done begun counts itself. */
  lemma {:induction false} DeleteRoundsCount(n: nat, replies: seq<Reply>, feed: seq<nat>, done: nat)
    ensures DeleteRounds(n, replies, feed, done).rounds > done
    decreases |replies|
  {
    var joined := DeleteJoin(n, replies);
    if joined.Returned? {
      var scan := ScanFeed(CommittedAnswers(joined.value), feed);
      if scan.Unconfirmed? {
        DeleteRoundsCount(n, Drop(Tail(replies), n), Drop(feed, scan.feedReads), done + 1);
      }
    }
  }

  /**
   * GenerateDeleteConflicts waits only for the first key, and with no
   * clients its first round throws on regionalClients[0].
   */
  lemma DeleteCampaignKeys(n: nat, replies: seq<Reply>, feed: seq<nat>, keys: seq<char>)
    ensures var end := DeleteCampaign(n, replies, feed, keys);
      (|keys| == 0 <==> end == Blocked(0)) &&
      (n == 0 && |keys| > 0 ==> end == Aborted(ArgumentOutOfRange, 1))
  {
    if |keys| > 0 {
      DeleteRoundsCount(n, replies, feed, 0);
    }
  }

  /**
   * A round's join throws only the status of one of its answers, a failure
   * that is not a race status of that attempt's operation.
   */
  lemma {:induction false} JoinThrew(plan: seq<OpKind>, replies: seq<Reply>)
    requires Join(plan, replies).Threw?
    ensures exists i | 0 <= i < |plan| && i < |replies| ::
      AttemptFailure(plan[i], replies[i], Join(plan, replies).error)
    decreases |plan|
  {
    var e := Join(plan, replies).error;
    if Classify(plan[0], Head(replies)).Threw? {
      assert AttemptFailure(plan[0], replies[0], e);
    } else {
      var rest := Join(plan[1..], Tail(replies));
      JoinThrew(plan[1..], Tail(replies));
      var i :| 0 <= i < |plan| - 1 && i < |replies| - 1 && AttemptFailure(plan[1..][i], Tail(replies)[i], rest.error);
      assert AttemptFailure(plan[i + 1], replies[i + 1], e);
    }
  }

  /** An answer to an attempt of operation kind that fails it, rethrown as e. */
  predicate AttemptFailure(kind: OpKind, reply: Reply, e: Error) {
    reply.Failed? && reply.status !in RaceStatuses(kind) && e == StoreError(reply.status)
  }

  /** An answer to an attempt of operation kind that lets its round go on: a success or a lost race. */
  predicate AttemptAnswered(kind: OpKind, reply: Reply) {
    reply.Ok? || (reply.Failed? && reply.status in RaceStatuses(kind))
  }

  /**
   * A failed answer to a seed insert and what the round then throws: 409
   * Conflict leaves the seed null, so the fan-out throws NullReference; any
   * other status is rethrown.
   */
  predicate SeedFailure(reply: Reply, e: Error) {
    reply.Failed? &&
    ((reply.status == StatusConflict && e == NullReference) ||
     (reply.status != StatusConflict && e == StoreError(reply.status)))
  }

  /**
   * Some insert round numbered first .. last, each taking the next n
   * answers, has an answer that fails it with e.
   */
  predicate InsertFailedIn(n: nat, replies: seq<Reply>, first: nat, last: nat, e: Error)
    decreases last + 1 - first
  {
    first <= last &&
    ((exists i | 0 <= i < n && i < |replies| :: AttemptFailure(CreateOp, replies[i], e)) ||
     InsertFailedIn(n, Drop(replies, n), first + 1, last, e))
  }

  /**
   * The insert rounds numbered first .. last are answered: every one of
   * their answers is a success or 409 Conflict.
   */
  predicate InsertAnsweredIn(n: nat, replies: seq<Reply>, first: nat, last: nat)
    decreases last + 1 - first
  {
    first > last ||
    (n <= |replies| && (forall i | 0 <= i < n :: AttemptAnswered(CreateOp, replies[i])) &&
     InsertAnsweredIn(n, Drop(replies, n), first + 1, last))
  }

  /**
   * Some seeded round numbered first .. last, each taking one answer for
   * the seed and then one per fan-out attempt plan[i], has an answer that
   * fails it with e.
   */
  predicate SeededFailedIn(plan: seq<OpKind>, replies: seq<Reply>, first: nat, last: nat, e: Error)
    decreases last + 1 - first
  {
    first <= last &&
    ((|replies| > 0 && SeedFailure(replies[0], e)) ||
     (exists i | 0 <= i < |plan| && i + 1 < |replies| :: AttemptFailure(plan[i], replies[i + 1], e)) ||
     SeededFailedIn(plan, Drop(Tail(replies), |plan|), first + 1, last, e))
  }

  /**
   * The seeded rounds numbered first .. last are answered: each seed insert
   * succeeds and every fan-out attempt succeeds or loses its race.
   */
  predicate SeededAnsweredIn(plan: seq<OpKind>, replies: seq<Reply>, first: nat, last: nat)
    decreases last + 1 - first
  {
    first > last ||
    (|plan| < |replies| && replies[0].Ok? &&
     (forall i | 0 <= i < |plan| :: AttemptAnswered(plan[i], replies[i + 1])) &&
     SeededAnsweredIn(plan, Drop(Tail(replies), |plan|), first + 1, last))
  }

  /** Insert rounds from next on abort only for an answer, in one of the rounds next .. r they ran, that fails an insert. */
  lemma {:induction false} InsertRoundsAborted(n: nat, replies: seq<Reply>, keys: seq<char>, next: nat, e: Error, r: nat)
    requires 1 <= next <= |keys| && InsertRounds(n, replies, keys, next) == Aborted(e, r)
    ensures next <= r && InsertFailedIn(n, replies, next, r, e)
    decreases |keys| - next
  {
    var joined := Join(Uniform(CreateOp, n), replies);
    if joined.Threw? {
      JoinThrew(Uniform(CreateOp, n), replies);
    } else {
      InsertRoundsAborted(n, Drop(replies, n), keys, next + 1, e, r);
    }
  }

  /**
   * GenerateInsertConflicts aborts after r rounds only for an answer in
   * one of those rounds that is a failure other than 409 Conflict, whose
   * status it rethrows.
   */
  lemma InsertCampaignAborted(n: nat, replies: seq<Reply>, keys: seq<char>, e: Error, r: nat)
    requires InsertCampaign(n, replies, keys) == Aborted(e, r)
    ensures 1 <= r && InsertFailedIn(n, replies, 1, r, e)
  {
    InsertRoundsAborted(n, replies, keys, 1, e, r);
  }

  /**
   * Insert rounds from next on whose rounds next .. last are answered end
   * their loop after round last when its key is the first that is not 'Y'
   * or 'y'.
   */
  lemma {:induction false} InsertRoundsAnswered(n: nat, replies: seq<Reply>, keys: seq<char>, next: nat, last: nat)
    requires 1 <= next <= last < |keys|
    requires forall k | next <= k < last :: IsYes(keys[k])
    requires !IsYes(keys[last])
    requires InsertAnsweredIn(n, replies, next, last)
    ensures InsertRounds(n, replies, keys, next) == Ended(last)
    decreases last - next
  {
    JoinAnswered(Uniform(CreateOp, n), replies);
    if next < last {
      InsertRoundsAnswered(n, Drop(replies, n), keys, next + 1, last);
    }
  }

  /**
   * When the operator answers 'Y' or 'y' L times and then something else,
   * and the rounds 1 .. 1 + L of n answers each are all successes or 409
   * Conflicts, GenerateInsertConflicts ends its loop after exactly 1 + L
   * rounds.
   */
  lemma InsertCampaignAnswered(n: nat, replies: seq<Reply>, keys: seq<char>)
    requires 0 < |keys| && 1 + LeadingYes(keys[1..]) < |keys|
    requires InsertAnsweredIn(n, replies, 1, 1 + LeadingYes(keys[1..]))
    ensures InsertCampaign(n, replies, keys) == Ended(1 + LeadingYes(keys[1..]))
  {
    LeadingKeys(keys);
    InsertRoundsAnswered(n, replies, keys, 1, 1 + LeadingYes(keys[1..]));
  }

  /** The keys after the first: LeadingYes of them are 'Y' or 'y', and the one after is not. */
  lemma LeadingKeys(keys: seq<char>)
    requires 0 < |keys| && 1 + LeadingYes(keys[1..]) < |keys|
    ensures forall k | 1 <= k < 1 + LeadingYes(keys[1..]) :: IsYes(keys[k])
    ensures !IsYes(keys[1 + LeadingYes(keys[1..])])
  {
    var m := LeadingYes(keys[1..]);
    forall k | 1 <= k < 1 + m ensures IsYes(keys[k]) {
      assert keys[1..][k - 1] == keys[k];
    }
    assert keys[1..][m] == keys[1 + m];
  }

  /** An update round with clients throws only for an answer in its window that fails the seed or a replace. */
  lemma UpdateJoinThrew(n: nat, replies: seq<Reply>)
    requires n > 0 && UpdateJoin(n, replies).Threw?
    ensures var e := UpdateJoin(n, replies).error;
      (|replies| > 0 && SeedFailure(replies[0], e)) ||
      (exists i | 0 <= i < n && i + 1 < |replies| :: AttemptFailure(Uniform(ReplaceOp, n)[i], replies[i + 1], e))
  {
    var plan := Uniform(ReplaceOp, n);
    if |replies| > 0 && replies[0].Ok? {
      JoinThrew(plan, Tail(replies));
      var e := UpdateJoin(n, replies).error;
      var i :| 0 <= i < n && i < |Tail(replies)| && AttemptFailure(plan[i], Tail(replies)[i], e);
      assert AttemptFailure(plan[i], replies[i + 1], e);
    }
  }

  /**
   * Update rounds from next on abort with ArgumentOutOfRange when there are
   * no clients, and otherwise only for an answer, in one of the rounds
   * next .. r they ran, that fails the seed or a replace.
   */
  lemma {:induction false} UpdateRoundsAborted(n: nat, replies: seq<Reply>, keys: seq<char>, next: nat, e: Error, r: nat)
    requires 1 <= next <= |keys| && UpdateRounds(n, replies, keys, next) == Aborted(e, r)
    ensures next <= r
    ensures (n == 0 && e == ArgumentOutOfRange && r == next) ||
      (n > 0 && SeededFailedIn(Uniform(ReplaceOp, n), replies, next, r, e))
    decreases |keys| - next
  {
    if n > 0 {
      if UpdateJoin(n, replies).Threw? {
        UpdateJoinThrew(n, replies);
      } else {
        UpdateRoundsAborted(n, Drop(Tail(replies), n), keys, next + 1, e, r);
      }
    }
  }

  /**
   * GenerateUpdateConflicts aborts after r rounds with ArgumentOutOfRange
   * exactly when there are no clients, and otherwise only for an answer in
   * one of those rounds that fails it: a seed insert that lost its race
   * (NullReference) or failed otherwise, or a replace that failed with a
   * status other than 412 or 404.
   */
  lemma UpdateCampaignAborted(n: nat, replies: seq<Reply>, keys: seq<char>, e: Error, r: nat)
    requires UpdateCampaign(n, replies, keys) == Aborted(e, r)
    ensures 1 <= r
    ensures (n == 0 && e == ArgumentOutOfRange && r == 1) ||
      (n > 0 && SeededFailedIn(Uniform(ReplaceOp, n), replies, 1, r, e))
  {
    UpdateRoundsAborted(n, replies, keys, 1, e, r);
  }

  /** A seed insert that loses its race leaves the seed null, and the first round throws NullReference. */
  lemma UpdateCampaignNullSeed(n: nat, replies: seq<Reply>, keys: seq<char>)
    requires n > 0 && |keys| > 0 && |replies| > 0 && replies[0] == Failed(StatusConflict)
    ensures UpdateCampaign(n, replies, keys) == Aborted(NullReference, 1)
  {
  }

  /**
   * Update rounds from next on whose rounds next .. last are answered end
   * their loop after round last when its key is the first that is not 'Y'
   * or 'y'.
   */
  lemma {:induction false} UpdateRoundsAnswered(n: nat, replies: seq<Reply>, keys: seq<char>, next: nat, last: nat)
    requires n > 0 && 1 <= next <= last < |keys|
    requires forall k | next <= k < last :: IsYes(keys[k])
    requires !IsYes(keys[last])
    requires SeededAnsweredIn(Uniform(ReplaceOp, n), replies, next, last)
    ensures UpdateRounds(n, replies, keys, next) == Ended(last)
    decreases last - next
  {
    SeededRoundJoins(Uniform(ReplaceOp, n), replies, next, last);
    if next < last {
      UpdateRoundsAnswered(n, Drop(Tail(replies), n), keys, next + 1, last);
    }
  }

  /** The first of the answered seeded rounds has its seed succeed and its fan-out join return. */
  lemma SeededRoundJoins(plan: seq<OpKind>, replies: seq<Reply>, first: nat, last: nat)
    requires first <= last && SeededAnsweredIn(plan, replies, first, last)
    ensures |replies| > 0 && replies[0].Ok? && Join(plan, Tail(replies)).Returned?
  {
    forall i | 0 <= i < |plan| ensures AttemptAnswered(plan[i], Tail(replies)[i]) {
      assert Tail(replies)[i] == replies[i + 1];
    }
    JoinAnswered(plan, Tail(replies));
  }

  /**
   * When the operator answers 'Y' or 'y' L times and then something else,
   * and in each of the rounds 1 .. 1 + L the seed insert succeeds and
   * every replace succeeds or fails with 412 or 404,
   * GenerateUpdateConflicts ends its loop after exactly 1 + L rounds.
   */
  lemma UpdateCampaignAnswered(n: nat, replies: seq<Reply>, keys: seq<char>)
    requires n > 0 && 0 < |keys| && 1 + LeadingYes(keys[1..]) < |keys|
    requires SeededAnsweredIn(Uniform(ReplaceOp, n), replies, 1, 1 + LeadingYes(keys[1..]))
    ensures UpdateCampaign(n, replies, keys) == Ended(1 + LeadingYes(keys[1..]))
  {
    LeadingKeys(keys);
    UpdateRoundsAnswered(n, replies, keys, 1, 1 + LeadingYes(keys[1..]));
  }

  /** The delete round on answers replies and feed counts feed joined and had its scan confirmed. */
  predicate Confirms(n: nat, replies: seq<Reply>, feed: seq<nat>) {
    var joined := DeleteJoin(n, replies);
    joined.Returned? && ScanFeed(CommittedAnswers(joined.value), feed).Confirmed?
  }

  /**
   * The delete round whose window starts at answer a, with its scan
   * reading feed counts from b on, joined and had its scan confirmed.
   */
  predicate ConfirmedRoundAt(n: nat, replies: seq<Reply>, a: nat, feed: seq<nat>, b: nat)
    requires a <= |replies| && b <= |feed|
  {
    Confirms(n, replies[a..], feed[b..])
  }

  /**
   * The delete round whose window starts at answer a joined and had its
   * scan confirmed, reading the feed from some count b on, and every count
   * before b was 0.
   */
  ghost predicate ConfirmedAfterEmpty(n: nat, replies: seq<Reply>, a: nat, feed: seq<nat>)
    requires a <= |replies|
  {
    exists b | 0 <= b <= |feed| :: ConfirmedRoundAt(n, replies, a, feed, b) && forall k | 0 <= k < b :: feed[k] == 0
  }

  /** Taking n answers after the first is taking n + 1. */
  lemma DropTail<T>(s: seq<T>, n: nat)
    ensures Drop(Tail(s), n) == Drop(s, n + 1)
  {
    if n + 1 < |s| {
      assert s[1..][n..] == s[n + 1..];
    }
  }

  /** The answer index at which seeded round k (counted from 0) begins: every earlier round takes n + 1 answers. */
  function RoundStart(n: nat, k: nat): nat {
    if k == 0 then 0 else n + 1 + RoundStart(n, k - 1)
  }

  /**
   * A seeded round k begins n + 1 answers after round j = k - 1. Both
   * indices are parameters so that a caller can name each as the term it
   * already has (say r - 1 - done and r - 1 - (done + 1)). Its ensures then
   * matches those terms without first rewriting k as j + 1.
   */
  lemma RoundStartNext(n: nat, k: nat, j: nat)
    requires k == j + 1
    ensures RoundStart(n, k) == n + 1 + RoundStart(n, j)
  { }

  /**
   * The answers and feed counts that are left when the delete round that
   * stops the campaign begins: every unconfirmed round before it takes its
   * n + 1 answers and the counts its scan read.
   */
  function FinalRound(n: nat, replies: seq<Reply>, feed: seq<nat>): (seq<Reply>, seq<nat>)
    decreases |replies|
  {
    var joined := DeleteJoin(n, replies);
    if !joined.Returned? then (replies, feed)
    else match ScanFeed(CommittedAnswers(joined.value), feed)
      case Unconfirmed(k) => FinalRound(n, Drop(Tail(replies), n), Drop(feed, k))
      case _ => (replies, feed)
  }

  /** The answer at which FinalRound begins. */
  function FinalStart(n: nat, replies: seq<Reply>, feed: seq<nat>): nat
    decreases |replies|
  {
    var joined := DeleteJoin(n, replies);
    if !joined.Returned? then 0
    else match ScanFeed(CommittedAnswers(joined.value), feed)
      case Unconfirmed(k) => n + 1 + FinalStart(n, Drop(Tail(replies), n), Drop(feed, k))
      case _ => 0
  }

  /** The feed counts that the unconfirmed rounds before FinalRound read. */
  function FeedBefore(n: nat, replies: seq<Reply>, feed: seq<nat>): nat
    decreases |replies|
  {
    var joined := DeleteJoin(n, replies);
    if !joined.Returned? then 0
    else match ScanFeed(CommittedAnswers(joined.value), feed)
      case Unconfirmed(k) => k + FeedBefore(n, Drop(Tail(replies), n), Drop(feed, k))
      case _ => 0
  }

  /** FinalRound begins within the answers: every round before it took its n + 1 answers. */
  lemma {:induction false} FinalStartBound(n: nat, replies: seq<Reply>, feed: seq<nat>)
    ensures FinalStart(n, replies, feed) <= |replies|
    decreases |replies|
  {
    var joined := DeleteJoin(n, replies);
    if joined.Returned? {
      var scan := ScanFeed(CommittedAnswers(joined.value), feed);
      if scan.Unconfirmed? {
        FinalStartBound(n, Drop(Tail(replies), n), Drop(feed, scan.feedReads));
        DropTail(replies, n);
      }
    }
  }

  /** FinalRound works on the answers from FinalStart on. */
  lemma {:induction false} FinalRoundAnswers(n: nat, replies: seq<Reply>, feed: seq<nat>)
    ensures FinalStart(n, replies, feed) <= |replies|
    ensures FinalRound(n, replies, feed).0 == replies[FinalStart(n, replies, feed)..]
    decreases |replies|
  {
    FinalStartBound(n, replies, feed);
    var joined := DeleteJoin(n, replies);
    if !joined.Returned? {
      assert replies[0..] == replies;
    } else {
      var scan := ScanFeed(CommittedAnswers(joined.value), feed);
      if !scan.Unconfirmed? {
        assert replies[0..] == replies;
      } else {
        var rest, feedRest := Drop(Tail(replies), n), Drop(feed, scan.feedReads);
        FinalRoundAnswers(n, rest, feedRest);
        DropTail(replies, n);
        DropSlice(replies, n + 1);
        SliceSlice(replies, n + 1, FinalStart(n, rest, feedRest));
      }
    }
  }

  /** The rounds before FinalRound read no more feed counts than there are, and all they read were 0. */
  lemma {:induction false} FeedBeforeBound(n: nat, replies: seq<Reply>, feed: seq<nat>)
    ensures FeedBefore(n, replies, feed) <= |feed|
    ensures forall k | 0 <= k < FeedBefore(n, replies, feed) :: feed[k] == 0
    decreases |replies|
  {
    var joined := DeleteJoin(n, replies);
    if joined.Returned? {
      var scan := ScanFeed(CommittedAnswers(joined.value), feed);
      if scan.Unconfirmed? {
        var k := scan.feedReads;
        ScanFeedUnconfirmed(CommittedAnswers(joined.value), feed);
        var rest, feedRest := Drop(Tail(replies), n), Drop(feed, k);
        FeedBeforeBound(n, rest, feedRest);
        DropSlice(feed, k);
        ZerosThrough(feed, k, FeedBefore(n, rest, feedRest));
      }
    }
  }

  /** FinalRound scans the feed from FeedBefore on. */
  lemma {:induction false} FinalRoundFeed(n: nat, replies: seq<Reply>, feed: seq<nat>)
    ensures FeedBefore(n, replies, feed) <= |feed|
    ensures FinalRound(n, replies, feed).1 == feed[FeedBefore(n, replies, feed)..]
    decreases |replies|
  {
    FeedBeforeBound(n, replies, feed);
    var joined := DeleteJoin(n, replies);
    if !joined.Returned? {
      assert feed[0..] == feed;
    } else {
      var scan := ScanFeed(CommittedAnswers(joined.value), feed);
      if !scan.Unconfirmed? {
        assert feed[0..] == feed;
      } else {
        var k := scan.feedReads;
        ScanFeedUnconfirmed(CommittedAnswers(joined.value), feed);
        var rest, feedRest := Drop(Tail(replies), n), Drop(feed, k);
        FinalRoundFeed(n, rest, feedRest);
        DropSlice(feed, k);
        SliceSlice(feed, k, FeedBefore(n, rest, feedRest));
      }
    }
  }

  /** Delete rounds after done rounds that end in round r end in FinalRound, which joined and had its scan confirmed. */
  lemma {:induction false} DeleteRoundsEnded(n: nat, replies: seq<Reply>, feed: seq<nat>, done: nat, r: nat)
    requires DeleteRounds(n, replies, feed, done) == Ended(r)
    ensures done < r
    ensures var f := FinalRound(n, replies, feed); Confirms(n, f.0, f.1)
    decreases |replies|
  {
    var joined := DeleteJoin(n, replies);
    var scan := ScanFeed(CommittedAnswers(joined.value), feed);
    if !scan.Confirmed? {
      DeleteRoundsEnded(n, Drop(Tail(replies), n), Drop(feed, scan.feedReads), done + 1, r);
    }
  }

  /** Delete rounds after done rounds that end in round r end in a FinalRound that begins at answer RoundStart(n, r - 1 - done). */
  lemma {:induction false} DeleteRoundsEndStart(n: nat, replies: seq<Reply>, feed: seq<nat>, done: nat, r: nat)
    requires DeleteRounds(n, replies, feed, done) == Ended(r)
    ensures done < r && FinalStart(n, replies, feed) == RoundStart(n, r - 1 - done)
    decreases |replies|
  {
    var joined := DeleteJoin(n, replies);
    if joined.Returned? && ScanFeed(CommittedAnswers(joined.value), feed).Unconfirmed? {
      var k := ScanFeed(CommittedAnswers(joined.value), feed).feedReads;
      DeleteRoundUnconfirmed(n, replies, feed, done);
      DeleteRoundsEndStart(n, Drop(Tail(replies), n), Drop(feed, k), done + 1, r);
      RoundStartNext(n, r - 1 - done, r - 1 - (done + 1));
    } else {
      DeleteRoundLast(n, replies, feed, done);
    }
  }

  /** A delete round whose scan is unconfirmed hands the answers and feed counts that are left to the next round. */
  lemma DeleteRoundUnconfirmed(n: nat, replies: seq<Reply>, feed: seq<nat>, done: nat)
    requires DeleteJoin(n, replies).Returned?
    requires ScanFeed(CommittedAnswers(DeleteJoin(n, replies).value), feed).Unconfirmed?
    ensures var k := ScanFeed(CommittedAnswers(DeleteJoin(n, replies).value), feed).feedReads;
      DeleteRounds(n, replies, feed, done) == DeleteRounds(n, Drop(Tail(replies), n), Drop(feed, k), done + 1) &&
      FinalStart(n, replies, feed) == n + 1 + FinalStart(n, Drop(Tail(replies), n), Drop(feed, k))
  { }

  /** A delete round that does not hand on to another round is the campaign's last, and FinalRound begins at its first answer. */
  lemma DeleteRoundLast(n: nat, replies: seq<Reply>, feed: seq<nat>, done: nat)
    requires !(DeleteJoin(n, replies).Returned? && ScanFeed(CommittedAnswers(DeleteJoin(n, replies).value), feed).Unconfirmed?)
    ensures DeleteRounds(n, replies, feed, done).rounds == done + 1 && FinalStart(n, replies, feed) == 0
  { }

  /** A confirmed FinalRound is the confirmed round at answer FinalStart, after only empty feed counts. */
  lemma FinalRoundAt(n: nat, replies: seq<Reply>, feed: seq<nat>)
    requires var f := FinalRound(n, replies, feed); Confirms(n, f.0, f.1)
    ensures FinalStart(n, replies, feed) < |replies|
    ensures ConfirmedAfterEmpty(n, replies, FinalStart(n, replies, feed), feed)
  {
    FinalRoundAnswers(n, replies, feed);
    FinalRoundFeed(n, replies, feed);
    FeedBeforeBound(n, replies, feed);
    var f := FinalRound(n, replies, feed);
    ConfirmsAnswered(n, f.0, f.1);
    assert ConfirmedRoundAt(n, replies, FinalStart(n, replies, feed), feed, FeedBefore(n, replies, feed));
  }

  /** What is left of s after k <= |s| entries is the slice from k. */
  lemma DropSlice<T>(s: seq<T>, k: nat)
    requires k <= |s|
    ensures Drop(s, k) == s[k..]
  { }

  /** Slicing from k and then from b is slicing from k + b. */
  lemma SliceSlice<T>(s: seq<T>, k: nat, b: nat)
    requires k + b <= |s|
    ensures s[k..][b..] == s[k + b..]
  { }

  /** k empty counts followed by b more empty counts are k + b empty counts. */
  lemma ZerosThrough(feed: seq<nat>, k: nat, b: nat)
    requires k + b <= |feed| && forall j | 0 <= j < k :: feed[j] == 0
    requires forall j | 0 <= j < b :: feed[k..][j] == 0
    ensures forall j | 0 <= j < k + b :: feed[j] == 0
  {
    forall j | k <= j < k + b ensures feed[j] == 0 {
      assert feed[k..][j - k] == feed[j];
    }
  }

  /** A confirmed round had its seed answer at least. */
  lemma ConfirmsAnswered(n: nat, replies: seq<Reply>, feed: seq<nat>)
    requires Confirms(n, replies, feed)
    ensures |replies| > 0
  { }

  /**
   * GenerateDeleteConflicts ends its loop after r rounds only when round r,
   * whose window starts at answer RoundStart(n, r - 1), joined and had its
   * scan confirmed, reading the feed from some count b on, and every count
   * before b was 0.
   */
  lemma DeleteCampaignEnded(n: nat, replies: seq<Reply>, feed: seq<nat>, keys: seq<char>, r: nat)
    requires DeleteCampaign(n, replies, feed, keys) == Ended(r)
    ensures 1 <= r && RoundStart(n, r - 1) < |replies|
    ensures ConfirmedAfterEmpty(n, replies, RoundStart(n, r - 1), feed)
  {
    DeleteRoundsEndAt(n, replies, feed, r);
  }

  /** Delete rounds from the first one on that end in round r end in the confirmed round at answer RoundStart(n, r - 1). */
  lemma DeleteRoundsEndAt(n: nat, replies: seq<Reply>, feed: seq<nat>, r: nat)
    requires DeleteRounds(n, replies, feed, 0) == Ended(r)
    ensures 1 <= r && RoundStart(n, r - 1) < |replies|
    ensures ConfirmedAfterEmpty(n, replies, RoundStart(n, r - 1), feed)
  {
    DeleteRoundsEnded(n, replies, feed, 0, r);
    DeleteRoundsEndStart(n, replies, feed, 0, r);
    FinalRoundIsRound(n, replies, feed, r - 1);
  }

  /** A confirmed FinalRound that begins at answer RoundStart(n, k) is the confirmed round there, after only empty feed counts. */
  lemma FinalRoundIsRound(n: nat, replies: seq<Reply>, feed: seq<nat>, k: nat)
    requires var f := FinalRound(n, replies, feed); Confirms(n, f.0, f.1)
    requires FinalStart(n, replies, feed) == RoundStart(n, k)
    ensures RoundStart(n, k) < |replies|
    ensures ConfirmedAfterEmpty(n, replies, RoundStart(n, k), feed)
  {
    FinalRoundAt(n, replies, feed);
  }

  /** A delete round with clients throws only for an answer in its window that fails the seed, a delete or a replace. */
  lemma DeleteJoinThrew(n: nat, replies: seq<Reply>)
    requires n > 0 && DeleteJoin(n, replies).Threw?
    ensures var e := DeleteJoin(n, replies).error;
      (|replies| > 0 && SeedFailure(replies[0], e)) ||
      (exists i | 0 <= i < |TogglePlan(true, n)| && i + 1 < |replies| :: AttemptFailure(TogglePlan(true, n)[i], replies[i + 1], e))
  {
    var plan := TogglePlan(true, n);
    if |replies| > 0 && replies[0].Ok? {
      assert DeleteJoin(n, replies) == Join(plan, Tail(replies));
      JoinThrew(plan, Tail(replies));
      var e := DeleteJoin(n, replies).error;
      var i :| 0 <= i < n && i < |Tail(replies)| && AttemptFailure(plan[i], Tail(replies)[i], e);
      assert AttemptFailure(plan[i], replies[i + 1], e);
      assert exists j | 0 <= j < |TogglePlan(true, n)| && j + 1 < |replies| :: AttemptFailure(TogglePlan(true, n)[j], replies[j + 1], DeleteJoin(n, replies).error);
    }
  }

  /**
   * Delete rounds after done rounds abort with ArgumentOutOfRange when there
   * are no clients, and otherwise only for an answer, in one of the rounds
   * done + 1 .. r they ran, that fails the seed, a delete or a replace. The
   * feed counts a scan reads do not move the answer windows.
   */
  lemma {:induction false} DeleteRoundsAborted(n: nat, replies: seq<Reply>, feed: seq<nat>, done: nat, e: Error, r: nat)
    requires DeleteRounds(n, replies, feed, done) == Aborted(e, r)
    ensures done < r
    ensures (n == 0 && e == ArgumentOutOfRange && r == done + 1) ||
      (n > 0 && SeededFailedIn(TogglePlan(true, n), replies, done + 1, r, e))
    decreases |replies|
  {
    if n > 0 {
      var joined := DeleteJoin(n, replies);
      if joined.Threw? {
        DeleteJoinThrew(n, replies);
      } else {
        var k := ScanFeed(CommittedAnswers(joined.value), feed).feedReads;
        DeleteRoundsAborted(n, Drop(Tail(replies), n), Drop(feed, k), done + 1, e, r);
      }
    }
  }

  /**
   * GenerateDeleteConflicts aborts after r rounds only in two ways. With no
   * clients it aborts with ArgumentOutOfRange in round 1. With clients it
   * aborts only for an answer in one of rounds 1 .. r that fails it: a seed
   * insert that lost its race (NullReference) or failed otherwise, or a
   * delete or replace that failed with a status other than 412 or 404.
   */
  lemma DeleteCampaignAborted(n: nat, replies: seq<Reply>, feed: seq<nat>, keys: seq<char>, e: Error, r: nat)
    requires DeleteCampaign(n, replies, feed, keys) == Aborted(e, r)
    ensures 1 <= r
    ensures (n == 0 && e == ArgumentOutOfRange && r == 1) ||
      (n > 0 && SeededFailedIn(TogglePlan(true, n), replies, 1, r, e))
  {
    DeleteRoundsAborted(n, replies, feed, 0, e, r);
  }

  /**
   * In a confirmed delete round the seed insert succeeded, some replace (an
   * odd-numbered client) committed, and a conflict-feed read from b on
   * found entries. A committed delete yields null and does not count.
   */
  lemma ConfirmedRoundCommits(n: nat, replies: seq<Reply>, a: nat, feed: seq<nat>, b: nat)
    requires a <= |replies| && b <= |feed| && ConfirmedRoundAt(n, replies, a, feed, b)
    ensures a < |replies| && replies[a].Ok?
    ensures exists i | 0 <= i < n && a + 1 + i < |replies| :: i % 2 == 1 && replies[a + 1 + i].Ok?
    ensures exists k | b <= k < |feed| :: feed[k] > 0
  {
    var window := replies[a..];
    var joined := DeleteJoin(n, window);
    var committed := CommittedAnswers(joined.value);
    ScanFeedConfirmed(committed, feed[b..]);
    var i :| 0 <= i < |committed| && committed[i];
    JoinCommitted(TogglePlan(true, n), Tail(window), i);
    TogglePlanAt(true, n, i);
    assert Tail(window)[i] == replies[a + 1 + i];
    var feedReads := ScanFeed(committed, feed[b..]).feedReads;
    assert feed[b..][feedReads - 1] == feed[b + feedReads - 1];
  }

  /**
   * A delete round in which every replace lost its race (whether or not a
   * delete committed) reads no feed entry and is followed by another round
   * on the remaining answers and the same feed.
   */
  lemma DeleteRoundNothingCommitted(n: nat, replies: seq<Reply>, feed: seq<nat>, done: nat)
    requires n > 0 && |replies| > n && replies[0].Ok?
    requires forall i | 0 <= i < n ::
      if i % 2 == 0 then replies[i + 1].Ok? || (replies[i + 1].Failed? && replies[i + 1].status in RaceStatuses(DeleteOp))
      else replies[i + 1].Failed? && replies[i + 1].status in RaceStatuses(ReplaceOp)
    ensures DeleteRounds(n, replies, feed, done) == DeleteRounds(n, replies[n + 1..], feed, done + 1)
  {
    JoinIsWhenAll(TogglePlan(true, n), Tail(replies));
    var cs := RoundEnds(TogglePlan(true, n), Tail(replies));
    forall i | 0 <= i < n ensures cs[i] == Returned(None) {
      TogglePlanAt(true, n, i);
      assert Tail(replies)[i] == replies[i + 1];
    }
    var joined := DeleteJoin(n, replies);
    ScanFeedNothingCommitted(CommittedAnswers(joined.value), feed);
    assert Drop(Tail(replies), n) == replies[n + 1..];
  }
}
