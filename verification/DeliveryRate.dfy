/**
  The rate limit at work in delivery: what an end has read in its session is what
  the read loop lets through, and the first message too many closes the link unread.
 */
module DeliveryRate {
  import opened MessageDb
  import opened Delivery
  import R = RateLimit

  function Mine(n: Net, left: bool): End {
    if left then n.left else n.right
  }

  /** The action brings up a session. */
  predicate Opens(n: Net, a: Action) {
    a.e.Connect? && !n.left.open && !n.right.open
  }

  /** The action has this end read a message. */
  predicate Reads(n: Net, a: Action, left: bool) {
    var x := Mine(n, left);
    a.Left? == left && a.e.Receive? && x.open && x.owed == Nothing && x.inbox != [] && x.inbox[0].Msg?
  }

  /** The times at which an end has read messages since its session came up. */
  function ReadTimes(n: Net, run: seq<Action>, left: bool): seq<int>
    decreases |run|
  {
    if run == [] then [] else
      var before, a := run[..|run| - 1], run[|run| - 1];
      if Opens(Run(n, before), a) then []
      else ReadTimes(n, before, left) + if Reads(Run(n, before), a, left) then [a.e.ts] else []
  }

  lemma ServeOneMore(times: seq<int>, ts: int)
    ensures R.Serve(times + [ts]) == R.Take(R.Serve(times), ts)
  {
    assert (times + [ts])[..|times|] == times;
  }

  lemma ActorsMeter(n: Net, e: Event)
    ensures var x, x', a := n.left, Act(n, e).left, Left(e);
      && (Opens(n, a) ==> x'.open && x'.meter == R.FRESH)
      && (Reads(n, a, true) && !R.Exceeded(R.Tick(x.meter, e.ts)) ==> x'.open && x'.meter == R.Tick(x.meter, e.ts))
      && (Reads(n, a, true) && R.Exceeded(R.Tick(x.meter, e.ts)) ==> !x'.open)
      && (!Opens(n, a) && !Reads(n, a, true) && x'.open ==> x.open && x'.meter == x.meter)
  {
  }

  lemma OthersMeter(n: Net, e: Event)
    ensures var y, y', a := n.right, Act(n, e).right, Left(e);
      && (Opens(n, a) ==> y'.open && y'.meter == R.FRESH)
      && (!Opens(n, a) ==> y'.open == y.open && y'.meter == y.meter)
  {
  }

  /** The session's meter is where the read loop is after the messages read in it. */
  ghost predicate Metered(x: End, times: seq<int>) {
    x.open ==> R.Serve(times).open && R.Serve(times).meter == x.meter
  }

  lemma StepMetered(n: Net, a: Action, left: bool, times: seq<int>)
    requires Metered(Mine(n, left), times)
    ensures Metered(Mine(Step(n, a), left),
      if Opens(n, a) then [] else times + if Reads(n, a, left) then [a.e.ts] else [])
  {
    var m := if a.Left? then n else Flip(n);
    ActorsMeter(m, a.e);
    OthersMeter(m, a.e);
    if Reads(n, a, left) {
      ServeOneMore(times, a.e.ts);
    } else {
      assert times + [] == times;
    }
  }

  /** Every run, either end: a session is still open only if the read loop would be after what was read in it. */
  lemma {:induction false} OpenWithinTheLimit(n: Net, run: seq<Action>, left: bool)
    requires !n.left.open && !n.right.open
    ensures Metered(Mine(Run(n, run), left), ReadTimes(n, run, left))
    decreases |run|
  {
    if run != [] {
      OpenWithinTheLimit(n, run[..|run| - 1], left);
      StepMetered(Run(n, run[..|run| - 1]), run[|run| - 1], left, ReadTimes(n, run[..|run| - 1], left));
    }
  }

  /** The message at the head is taken off the wire, held from now on as it came, and owed an ack. */
  ghost predicate Handled(x: End, x': End, ts: int) {
    && x.inbox != [] && x.inbox[0].Msg?
    && var p := x.inbox[0].p;
      && x'.open && x'.inbox == x.inbox[1..] && x'.owed == Owing(p.id)
      && (p.id in x.db.idx ==> x'.db == x.db && x'.log == x.log)
      && (p.id !in x.db.idx ==>
          && x'.log == x.log + [p] && Known(x'.db, p.id)
          && Lookup(x'.db, p.id) == Message(p.id, x.peer, In, p.body, ts, Received, 0, 0, x.db.last + 1, p.replyTo))
  }

  lemma ReadHandles(x: End, ts: int)
    requires x.open && x.inbox != [] && x.inbox[0].Msg?
    ensures R.Exceeded(R.Tick(x.meter, ts)) ==> Read(x, ts) == Closed(x)
    ensures !R.Exceeded(R.Tick(x.meter, ts)) ==> Handled(x, Read(x, ts), ts)
  {
  }

  /**
    Every run, either end: a message that is read is handled if and only if the read
    loop, after what was read before it in the session, lets it through; otherwise
    the link is closed and the store is as it was.
   */
  lemma {:induction false} HandledIffWithinTheLimit(n: Net, run: seq<Action>, left: bool, a: Action)
    requires !n.left.open && !n.right.open && Reads(Run(n, run), a, left)
    ensures var x, x' := Mine(Run(n, run), left), Mine(Step(Run(n, run), a), left);
      && (R.Serve(ReadTimes(n, run, left) + [a.e.ts]).open ==> Handled(x, x', a.e.ts))
      && (!R.Serve(ReadTimes(n, run, left) + [a.e.ts]).open ==>
          !x'.open && x'.db == x.db && x'.log == x.log && x'.sent == x.sent && x'.owed == Nothing && x'.inbox == [])
  {
    OpenWithinTheLimit(n, run, left);
    ServeOneMore(ReadTimes(n, run, left), a.e.ts);
    ReadHandles(Mine(Run(n, run), left), a.e.ts);
  }

  /** So with a clock that does not go back, no second of a session holds more than 199 messages read. */
  lemma SessionIsSparse(n: Net, run: seq<Action>, left: bool)
    requires !n.left.open && !n.right.open && Mine(Run(n, run), left).open
    requires R.Nondecreasing(ReadTimes(n, run, left))
    ensures R.Sparse(ReadTimes(n, run, left))
  {
    OpenWithinTheLimit(n, run, left);
    R.AcceptedAll(ReadTimes(n, run, left));
    R.RateIsBounded(ReadTimes(n, run, left));
  }
}
