/**
  The delivery promise put together: in a disciplined run the receiver holds a
  prefix of what was queued, nothing pending means it holds all of it, and unless
  a message cannot be encoded every disciplined run can be continued, with the
  same discipline, to that point.
 */
module DeliveryCompletion {
  import opened Names
  import opened MessageDb
  import opened Conversation
  import opened Delivery
  import opened DeliverySafety
  import opened DeliveryOrder
  import opened DeliveryProgress

  lemma {:induction false} StaysDisciplined(n: Net, run: seq<Action>, rest: seq<Action>)
    requires Disciplined(n, run) && AllPlain(rest)
    ensures Disciplined(n, run + rest)
    decreases |rest|
  {
    if rest == [] {
      assert run + rest == run;
    } else {
      var k := |rest| - 1;
      StaysDisciplined(n, run, rest[..k]);
      assert (run + rest)[..|run| + k] == run + rest[..k];
      assert (run + rest)[|run| + k] == rest[k];
    }
  }

  lemma PlainActKeepsSent(n: Net, e: Event)
    requires Plain(e)
    ensures Act(n, e).left.sent == n.left.sent && Act(n, e).right.sent == n.right.sent
  {
  }

  lemma {:induction false} PlainKeepsSent(n: Net, run: seq<Action>)
    requires AllPlain(run)
    ensures Run(n, run).left.sent == n.left.sent
    ensures Run(n, run).right.sent == n.right.sent
    decreases |run|
  {
    if run != [] {
      var before := run[..|run| - 1];
      PlainKeepsSent(n, before);
      match run[|run| - 1]
      case Left(e) => PlainActKeepsSent(Run(n, before), e);
      case Right(e) => PlainActKeepsSent(Flip(Run(n, before)), e);
    }
  }

  /** A proper prefix of a list without repetitions lacks the element after it. */
  lemma ProperPrefixLacks(log: seq<Payload>, sent: seq<Payload>)
    requires log <= sent && Distinct(sent) && |log| < |sent|
    ensures sent[|log|] in sent && sent[|log|] !in log
  {
    assert forall i :: 0 <= i < |log| ==> log[i] == sent[i];
  }

  lemma QueuedIsSettled(n: Net, p: Payload)
    requires Orderly(n) && Pending(n.left.db, n.left.peer) == [] && p in n.left.sent
    ensures p in n.right.log
  {
    var x := n.left;
    SentIsBooked(x);
    var i :| 0 <= i < |x.sent| && x.sent[i] == p;
    var m := Lookup(x.db, p.id);
    assert Ours(x, x.sent[i].id);
    assert Addressed(x, m);
    RowAt(x.db, Lower(x.peer), m.num, m);
    SelectMember(x.db, Lower(x.peer), Unsent, x.db.last, m);
  }

  /** After every disciplined run with nothing pending: stored is exactly queued. */
  lemma {:induction false} NothingPendingMeansAllStored(left: Name, right: Name, run: seq<Action>)
    requires Trimmed(left) && Trimmed(right) && Disciplined(Start(left, right), run)
    requires var n := Run(Start(left, right), run); Pending(n.left.db, n.left.peer) == []
    ensures var n := Run(Start(left, right), run);
      Arrived(n.right.db, n.right.peer) == Sent(n.left.db, n.left.peer)
  {
    RunOrderly(left, right, run);
    var n := Run(Start(left, right), run);
    var k := |n.right.log|;
    if k < |n.left.sent| {
      ProperPrefixLacks(n.right.log, n.left.sent);
      QueuedIsSettled(n, n.left.sent[k]);
    }
  }

  /**
    Every disciplined run whose pending messages can be encoded goes on,
    disciplined, until all it queued is stored.
   */
  lemma {:induction false} EverythingArrives(left: Name, right: Name, run: seq<Action>) returns (rest: seq<Action>)
    requires Trimmed(left) && Trimmed(right) && Disciplined(Start(left, right), run)
    requires var n := Run(Start(left, right), run); AllEncodable(Pending(n.left.db, n.left.peer))
    ensures AllPlain(rest) && Disciplined(Start(left, right), run + rest)
    ensures var n, n' := Run(Start(left, right), run), Run(Start(left, right), run + rest);
      && Pending(n'.left.db, n'.left.peer) == []
      && Arrived(n'.right.db, n'.right.peer) == Sent(n.left.db, n.left.peer)
  {
    var n := Run(Start(left, right), run);
    RunOrderly(left, right, run);
    var n' := OneSessionDelivers(n);
    rest :| AllPlain(rest) && Run(n, rest) == n';
    RunConcat(Start(left, right), run, rest);
    StaysDisciplined(Start(left, right), run, rest);
    PlainKeepsSent(n, rest);
    RunOrderly(left, right, run + rest);
    NothingPendingMeansAllStored(left, right, run + rest);
  }
}
