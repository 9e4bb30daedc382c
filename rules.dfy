/**
 * The decision rules of the round loops, on plain values: the operator's
 * continue answers, the Delete/Update assignment of the delete round's
 * fan-out, and the scan of a delete round's results against the conflict feed.
 */
module Rules {
  import opened Outcomes

  /** The answer that asks for another round. */
  predicate IsYes(key: char) { key == 'Y' || key == 'y' }

  /** How many of the answers, from the first, ask for another round. */
  function LeadingYes(answers: seq<char>): (n: nat)
    ensures n <= |answers|
    ensures forall k | 0 <= k < n :: IsYes(answers[k])
    ensures n < |answers| ==> !IsYes(answers[n])
  {
    if answers == [] || !IsYes(answers[0]) then 0 else 1 + LeadingYes(answers[1..])
  }

  /** The only count with these two properties is LeadingYes. */
  lemma LeadingYesUnique(answers: seq<char>, m: nat)
    requires m < |answers| && !IsYes(answers[m])
    requires forall k | 0 <= k < m :: IsYes(answers[k])
    ensures LeadingYes(answers) == m
  {
  }

  /**
   * The operations the delete round's loop assigns to n clients when its flag
   * starts at isDeleteTask: a Delete while the flag is set, an Update
   * otherwise, flipping the flag after each client.
   */
  function TogglePlan(isDeleteTask: bool, n: nat): (plan: seq<OpKind>)
    ensures |plan| == n
    decreases n
  {
    if n == 0 then []
    else [if isDeleteTask then DeleteOp else ReplaceOp] + TogglePlan(!isDeleteTask, n - 1)
  }

  /** Client i's operation by parity, once the flag starts at isDeleteTask. */
  lemma {:induction false} TogglePlanAt(isDeleteTask: bool, n: nat, i: nat)
    requires i < n
    ensures TogglePlan(isDeleteTask, n)[i] == if (i % 2 == 0) == isDeleteTask then DeleteOp else ReplaceOp
    decreases n
  {
    if i > 0 {
      TogglePlanAt(!isDeleteTask, n - 1, i - 1);
      assert ((i - 1) % 2 == 0) == (i % 2 != 0);
    }
  }

  /** Starting with Delete, client i deletes exactly when i is even and updates otherwise. */
  lemma DeletePlanParity(n: nat)
    ensures forall i | 0 <= i < n :: TogglePlan(true, n)[i] == if i % 2 == 0 then DeleteOp else ReplaceOp
  {
    forall i | 0 <= i < n
      ensures TogglePlan(true, n)[i] == if i % 2 == 0 then DeleteOp else ReplaceOp
    {
      TogglePlanAt(true, n, i);
    }
  }

  /**
   * The last client of a delete round of n >= 2 clients that updates
   * rather than deletes, once the flag starts at Delete; every later client
   * deletes.
   */
  function LastUpdater(n: nat): (r: nat)
    requires n >= 2
    ensures r < n && TogglePlan(true, n)[r] == ReplaceOp
    ensures forall j | r < j < n :: TogglePlan(true, n)[j] == DeleteOp
  {
    DeletePlanParity(n);
    if n % 2 == 0 then n - 1 else n - 2
  }

  /** One more client: an odd-numbered one becomes the last updater, an even-numbered one leaves it. */
  lemma LastUpdaterNext(i: nat)
    ensures i % 2 == 1 ==> LastUpdater(i + 1) == i
    ensures i % 2 == 0 && i >= 2 ==> LastUpdater(i + 1) == LastUpdater(i)
  {
  }

  /** With two or more regions the round races a delete against an update, never only deletes. */
  lemma DeletePlanMixes(n: nat)
    requires n >= 2
    ensures DeleteOp in TogglePlan(true, n) && ReplaceOp in TogglePlan(true, n)
  {
    DeletePlanParity(n);
    assert TogglePlan(true, n)[0] == DeleteOp;
    assert TogglePlan(true, n)[1] == ReplaceOp;
  }

  /** How many of a round's results are committed documents. */
  function CountTrue(s: seq<bool>): (n: nat)
    ensures n <= |s|
  {
    if s == [] then 0 else (if s[0] then 1 else 0) + CountTrue(s[1..])
  }

  /**
   * The end of a delete round's scan of its results: a read of the conflict
   * feed found entries, no read did, or a read is still waiting for the
   * store. feedReads counts the feed reads that returned.
   */
  datatype ScanEnd = Confirmed(feedReads: nat) | Unconfirmed(feedReads: nat) | Stalled(feedReads: nat)

  function Shift(e: ScanEnd, k: nat): ScanEnd {
    match e
    case Confirmed(r) => Confirmed(r + k)
    case Unconfirmed(r) => Unconfirmed(r + k)
    case Stalled(r) => Stalled(r + k)
  }

  /**
   * The scan over committed (whether each result is a document) with the
   * feed counts the store will return: every committed result reads the
   * feed, and the first count above zero stops the scan.
   */
  function ScanFeed(committed: seq<bool>, feed: seq<nat>): ScanEnd
    decreases |committed|
  {
    if committed == [] then Unconfirmed(0)
    else if !committed[0] then ScanFeed(committed[1..], feed)
    else if feed == [] then Stalled(0)
    else if feed[0] > 0 then Confirmed(1)
    else Shift(ScanFeed(committed[1..], feed[1..]), 1)
  }

  /** A round in which every attempt lost its race never reads the feed and is not confirmed. */
  lemma {:induction false} ScanFeedNothingCommitted(committed: seq<bool>, feed: seq<nat>)
    requires forall i | 0 <= i < |committed| :: !committed[i]
    ensures ScanFeed(committed, feed) == Unconfirmed(0)
    decreases |committed|
  {
    if committed != [] {
      ScanFeedNothingCommitted(committed[1..], feed);
    }
  }

  /**
   * A confirmed scan stopped at the first read that found entries, after
   * reads that found none, and some result was a committed document.
   */
  lemma {:induction false} ScanFeedConfirmed(committed: seq<bool>, feed: seq<nat>)
    requires ScanFeed(committed, feed).Confirmed?
    ensures var r := ScanFeed(committed, feed).feedReads;
      1 <= r <= |feed| && r <= CountTrue(committed) && feed[r - 1] > 0 &&
      forall k | 0 <= k < r - 1 :: feed[k] == 0
    ensures exists i | 0 <= i < |committed| :: committed[i]
    decreases |committed|
  {
    if !committed[0] {
      ScanFeedConfirmed(committed[1..], feed);
      var i :| 0 <= i < |committed[1..]| && committed[1..][i];
      assert committed[i + 1];
    } else if feed[0] == 0 {
      ScanFeedConfirmed(committed[1..], feed[1..]);
    }
  }

  /** An unconfirmed scan read the feed once per committed result and every read found it empty. */
  lemma {:induction false} ScanFeedUnconfirmed(committed: seq<bool>, feed: seq<nat>)
    requires ScanFeed(committed, feed).Unconfirmed?
    ensures var r := ScanFeed(committed, feed).feedReads;
      r == CountTrue(committed) && r <= |feed| && forall k | 0 <= k < r :: feed[k] == 0
    decreases |committed|
  {
    if committed != [] {
      if !committed[0] {
        ScanFeedUnconfirmed(committed[1..], feed);
      } else {
        ScanFeedUnconfirmed(committed[1..], feed[1..]);
      }
    }
  }

  /**
   * When the store answers every read, the scan is confirmed exactly when one
   * of the first CountTrue(committed) counts is above zero.
   */
  lemma {:induction false} ScanFeedDecides(committed: seq<bool>, feed: seq<nat>)
    requires CountTrue(committed) <= |feed|
    ensures !ScanFeed(committed, feed).Stalled?
    ensures ScanFeed(committed, feed).Confirmed? <==> exists k | 0 <= k < CountTrue(committed) :: feed[k] > 0
    decreases |committed|
  {
    if committed != [] {
      if !committed[0] {
        ScanFeedDecides(committed[1..], feed);
      } else if feed[0] == 0 {
        ScanFeedDecides(committed[1..], feed[1..]);
        if exists k | 0 <= k < CountTrue(committed) :: feed[k] > 0 {
          var k :| 0 <= k < CountTrue(committed) && feed[k] > 0;
          assert feed[1..][k - 1] > 0;
        }
        if ScanFeed(committed[1..], feed[1..]).Confirmed? {
          var k :| 0 <= k < CountTrue(committed[1..]) && feed[1..][k] > 0;
          assert feed[k + 1] > 0;
        }
      } else {
        assert feed[0] > 0;
      }
    }
  }
}
