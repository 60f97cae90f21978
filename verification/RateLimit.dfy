/**
  The read loop's rate limit: at most 100 messages per window, a window lasting
  at least a second from its first message, and the session closed on the 101st.
 */
module RateLimit {
  import opened OptionType

  const SECOND: int := 1_000_000_000
  const MAX_PER_WINDOW: nat := 100

  /** rateStart and msgCount of the read loop. */
  datatype Meter = Meter(start: Option<int>, count: nat)

  const FRESH := Meter(None, 0)

  /** One more message at this time: in the current window, or the first of the next. */
  function Tick(m: Meter, now: int): Meter {
    if m.start.None? || now - m.start.value > SECOND then Meter(Some(now), 1) else m.(count := m.count + 1)
  }

  predicate Exceeded(m: Meter) {
    m.count > MAX_PER_WINDOW
  }

  /** A time at which the next message opens a window of its own. */
  function LaterThan(m: Meter): (now: int)
    ensures Tick(m, now) == Meter(Some(now), 1)
  {
    if m.start.None? then 0 else m.start.value + SECOND + 1
  }

  /** The loop with the arrival times of the messages it let through. */
  datatype Loop = Loop(meter: Meter, open: bool, accepted: seq<int>)

  function Take(l: Loop, now: int): Loop {
    if !l.open then l else
      var meter := Tick(l.meter, now);
      if Exceeded(meter) then Loop(meter, false, l.accepted) else Loop(meter, true, l.accepted + [now])
  }

  function Serve(times: seq<int>): Loop {
    if times == [] then Loop(FRESH, true, [])
    else Take(Serve(times[..|times| - 1]), times[|times| - 1])
  }

  ghost predicate Nondecreasing(ts: seq<int>) {
    forall i, j :: 0 <= i < j < |ts| ==> ts[i] <= ts[j]
  }

  /** No closed second holds more than 199 of the times. */
  ghost predicate Sparse(ts: seq<int>) {
    forall i, j :: 0 <= i <= j < |ts| && ts[j] - ts[i] <= 1_000_000_000 ==> j - i + 1 <= 199
  }

  /** The current window begins at index p of the accepted list, the one before it at q. */
  ghost predicate Windows(l: Loop, q: nat, p: nat) {
    var a := l.accepted;
    && q <= p <= |a|
    && (p == 0 ==> q == 0)
    && p - q <= MAX_PER_WINDOW && |a| - p <= MAX_PER_WINDOW
    && (l.open ==> |a| - p == l.meter.count)
    && (a == [] ==> l.meter.start == None)
    && (a != [] && l.open ==> p < |a| && l.meter.start == Some(a[p]))
    && (0 < p < |a| ==> q < p && a[p] - a[q] > SECOND)
  }

  /** One more accepted message stays in its window or opens the next. */
  lemma TakeWindows(l: Loop, now: int, q: nat, p: nat) returns (q': nat, p': nat)
    requires Windows(l, q, p) && l.open && Take(l, now).open
    ensures Windows(Take(l, now), q', p') && p' < |Take(l, now).accepted|
  {
    q', p' := q, p;
    if l.meter.start.Some? && now - l.meter.start.value > SECOND {
      q', p' := p, |l.accepted|;
    }
  }

  lemma {:induction false} ServeSparse(times: seq<int>) returns (q: nat, p: nat)
    requires Nondecreasing(times)
    ensures var l := Serve(times); l.accepted <= times && Sparse(l.accepted) && Windows(l, q, p)
  {
    if times == [] {
      q, p := 0, 0;
    } else {
      var n := |times| - 1;
      q, p := ServeSparse(times[..n]);
      AcceptedAll(times[..n]);
      AcceptedAll(times);
      if Serve(times).open {
        q, p := TakeWindows(Serve(times[..n]), times[n], q, p);
        NewestSparse(times, q, p);
      }
    }
  }

  /** While the link is open nothing has been turned away. */
  lemma {:induction false} AcceptedAll(times: seq<int>)
    ensures Serve(times).open ==> Serve(times).accepted == times
  {
    if times != [] {
      AcceptedAll(times[..|times| - 1]);
      assert times == times[..|times| - 1] + [times[|times| - 1]];
    }
  }

  /** Adding one more time to a sparse list keeps it sparse when it falls in a window of at most 100. */
  lemma NewestSparse(a: seq<int>, q: nat, p: nat)
    requires a != [] && Nondecreasing(a) && Sparse(a[..|a| - 1])
    requires q <= p < |a| && (p == 0 ==> q == 0)
    requires p - q <= MAX_PER_WINDOW && |a| - p <= MAX_PER_WINDOW
    requires p > 0 ==> a[p] - a[q] > SECOND
    ensures Sparse(a)
  {
    var n := |a| - 1;
    assert p > 0 ==> forall i :: 0 <= i <= q ==> a[i] <= a[q] && a[p] <= a[n];
    forall i, j | 0 <= i <= j < |a| && a[j] - a[i] <= SECOND ensures j - i + 1 <= 199 {
      if j < n {
        assert a[..n][i] == a[i] && a[..n][j] == a[j];
      }
    }
  }

  /** For every nondecreasing clock: what is accepted is a prefix, and no second holds more than 199 of it. */
  lemma RateIsBounded(times: seq<int>)
    requires Nondecreasing(times)
    ensures Serve(times).accepted <= times && Sparse(Serve(times).accepted)
  {
    var _, _ := ServeSparse(times);
  }

  function Times(t: int, k: nat): seq<int> {
    seq(k, _ => t)
  }

  lemma {:induction false} SameWindow(base: seq<int>, t: int, k: nat)
    requires Serve(base).open && Serve(base).meter.start.Some?
    requires t - Serve(base).meter.start.value <= SECOND && Serve(base).meter.count + k <= MAX_PER_WINDOW
    ensures var l := Serve(base);
      Serve(base + Times(t, k)) == Loop(Meter(l.meter.start, l.meter.count + k), true, l.accepted + Times(t, k))
  {
    if k == 0 {
      assert base + Times(t, 0) == base && Serve(base).accepted + Times(t, 0) == Serve(base).accepted;
    } else {
      SameWindow(base, t, k - 1);
      assert Times(t, k) == Times(t, k - 1) + [t];
      assert (base + Times(t, k))[..|base| + k - 1] == base + Times(t, k - 1);
    }
  }

  /** 199 is the exact bound: some clock lets that many through in one second. */
  lemma BoundIsReached() returns (times: seq<int>)
    ensures Nondecreasing(times) && Serve(times).accepted == times
    ensures |times| == 200 && times[199] - times[1] <= 1_000_000_000
  {
    assert [0][..0] == [];
    assert Serve([0]) == Loop(Meter(Some(0), 1), true, [0]);
    SameWindow([0], SECOND, 99);
    var first := [0] + Times(SECOND, 99);
    var next := first + [SECOND + 1];
    assert next[..100] == first;
    assert Serve(next) == Loop(Meter(Some(SECOND + 1), 1), true, next);
    SameWindow(next, SECOND + 1, 99);
    times := next + Times(SECOND + 1, 99);
  }

  /** A hundred messages are let through however fast they come. */
  lemma {:induction false} HundredPass(times: seq<int>)
    requires |times| <= 100
    ensures Serve(times).open && Serve(times).accepted == times && Serve(times).meter.count <= |times|
  {
    if times != [] {
      HundredPass(times[..|times| - 1]);
      assert times == times[..|times| - 1] + [times[|times| - 1]];
    }
  }

  lemma {:induction false} OneWindow(times: seq<int>)
    requires 0 < |times| <= 100 && forall i :: 0 <= i < |times| ==> times[i] - times[0] <= 1_000_000_000
    ensures Serve(times).meter == Meter(Some(times[0]), |times|)
  {
    if |times| == 1 {
      assert times[..0] == [];
    } else {
      OneWindow(times[..|times| - 1]);
      HundredPass(times[..|times| - 1]);
    }
  }

  lemma {:induction false} ClosedStays(times: seq<int>, n: nat)
    requires n <= |times| && !Serve(times[..n]).open
    ensures !Serve(times).open && Serve(times).accepted == Serve(times[..n]).accepted
  {
    if n == |times| {
      assert times[..n] == times;
    } else {
      assert times[..|times| - 1][..n] == times[..n];
      ClosedStays(times[..|times| - 1], n);
    }
  }

  /** A message more than a second after the first of a window opens the next window, however full the last one is. */
  lemma NextWindowOpens(times: seq<int>, now: int)
    requires 0 < |times| <= 100 && forall i :: 0 <= i < |times| ==> times[i] - times[0] <= 1_000_000_000
    requires now - times[0] > 1_000_000_000
    ensures Serve(times + [now]) == Loop(Meter(Some(now), 1), true, times + [now])
  {
    OneWindow(times);
    HundredPass(times);
    assert (times + [now])[..|times|] == times;
  }

  /** Of more than a hundred within a second of the first, a hundred pass and the next one closes the link. */
  lemma {:induction false} HundredAndFirstCloses(times: seq<int>)
    requires |times| > 100 && forall i :: 0 <= i < |times| ==> times[i] - times[0] <= 1_000_000_000
    ensures !Serve(times).open && Serve(times).accepted == times[..100]
  {
    OneWindow(times[..100]);
    HundredPass(times[..100]);
    assert times[..101][..100] == times[..100];
    ClosedStays(times, 101);
  }

  /** The loop itself. */
  method ReadLoop(times: seq<int>) returns (accepted: seq<int>, closed: bool)
    ensures accepted == Serve(times).accepted && closed == !Serve(times).open
  {
    var rateStart: Option<int>, msgCount := None, 0;
    accepted, closed := [], false;
    for i := 0 to |times|
      invariant Serve(times[..i]) == Loop(Meter(rateStart, msgCount), !closed, accepted)
    {
      assert times[..i + 1][..i] == times[..i];
      if !closed {
        var now := times[i];
        if rateStart == None || now - rateStart.value > SECOND {
          rateStart := Some(now);
          msgCount := 0;
        }
        msgCount := msgCount + 1;
        if msgCount > MAX_PER_WINDOW {
          closed := true;
        } else {
          accepted := accepted + [now];
        }
      }
    }
    assert times[..|times|] == times;
  }
}
