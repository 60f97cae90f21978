/**
  Registration of sessions: the newest session with a name wins, and a session
  that ends removes only itself.
 */
module Links {
  import opened ByteOrder
  import opened Names

  /**
    names: every link ever registered and the folded name it serves; open: those
    whose connection is open; live: the map consulted for sending.
   */
  datatype State = State(names: map<nat, Bytes>, open: set<nat>, live: map<Bytes, nat>)

  const START := State(map[], {}, map[])

  datatype Event =
    | Establish(link: nat, peer: Name)
    | Break(link: nat)
    | Cleanup(link: nat)
    | StopAll

  /** A new link has never been registered; only a registered link ends. */
  predicate Enabled(s: State, e: Event) {
    match e
    case Establish(l, _) => l !in s.names
    case Break(l) => l in s.names
    case Cleanup(l) => l in s.names
    case StopAll => true
  }

  function Step(s: State, e: Event): State {
    if !Enabled(s, e) then s else
      match e
      case Establish(l, peer) =>
        var key := Lower(peer);
        State(s.names[l := key],
              (if key in s.live then s.open - {s.live[key]} else s.open) + {l},
              s.live[key := l])
      case Break(l) => s.(open := s.open - {l})
      case Cleanup(l) =>
        s.(open := s.open - {l},
           live := if s.names[l] in s.live && s.live[s.names[l]] == l then s.live - {s.names[l]} else s.live)
      case StopAll => s.(open := s.open - s.live.Values)
  }

  function Run(s: State, run: seq<Event>): State
    decreases |run|
  {
    if run == [] then s else Step(Run(s, run[..|run| - 1]), run[|run| - 1])
  }

  ghost predicate Registered(s: State) {
    && (forall l :: l in s.open ==> l in s.names && s.names[l] in s.live && s.live[s.names[l]] == l)
    && (forall k :: k in s.live ==> s.live[k] in s.names && s.names[s.live[k]] == k)
  }

  lemma {:induction false} RunRegistered(run: seq<Event>)
    ensures Registered(Run(START, run))
    decreases |run|
  {
    if run != [] {
      RunRegistered(run[..|run| - 1]);
    }
  }

  /** Under every interleaving: at most one open link per name, and it is the one in the live map. */
  lemma OneOpenLinkPerName(run: seq<Event>, a: nat, b: nat)
    requires var s := Run(START, run); a in s.open && b in s.open
    ensures var s := Run(START, run);
      && a in s.names && b in s.names
      && s.names[a] in s.live && s.live[s.names[a]] == a
      && (s.names[a] == s.names[b] ==> a == b)
  {
    RunRegistered(run);
  }

  /** A live entry goes only by the end of that very link, or by a newer session with the same name. */
  lemma OnlyItselfRemoves(run: seq<Event>, e: Event, key: Bytes)
    requires key in Run(START, run).live
    requires var s' := Step(Run(START, run), e); key !in s'.live || s'.live[key] != Run(START, run).live[key]
    ensures e == Cleanup(Run(START, run).live[key]) || (e.Establish? && Lower(e.peer) == key)
  {
    RunRegistered(run);
  }

  // ---- what becomes of a session ----

  /** Nothing is said of any other name, nor of the openness of any link but these. */
  ghost predicate OthersStay(s: State, s': State, key: Bytes, touched: set<nat>) {
    && (forall k :: k != key ==> (k in s'.live <==> k in s.live) && (k in s.live ==> s'.live[k] == s.live[k]))
    && (forall m :: m !in touched ==> (m in s'.open <==> m in s.open))
    && (forall m :: m in s.names ==> m in s'.names && s'.names[m] == s.names[m])
  }

  /**
    In every run the newest session wins: a link that is established is open and
    the live one of its name, the one that was live before it is closed, and nothing
    else changes.
   */
  lemma {:induction false} NewestWins(run: seq<Event>, l: nat, peer: Name)
    requires l !in Run(START, run).names
    ensures var s, s', key := Run(START, run), Run(START, run + [Establish(l, peer)]), Lower(peer);
      && key in s'.live && s'.live[key] == l && l in s'.open && l in s'.names && s'.names[l] == key
      && (key in s.live ==> s.live[key] !in s'.open)
      && OthersStay(s, s', key, if key in s.live then {l, s.live[key]} else {l})
  {
    RunRegistered(run);
    assert (run + [Establish(l, peer)])[..|run|] == run;
  }

  /** In every run a session that ends is closed, and its name has no live link unless a newer one has taken over. */
  lemma {:induction false} EndedIsGone(run: seq<Event>, l: nat)
    requires l in Run(START, run).names
    ensures var s, s' := Run(START, run), Run(START, run + [Cleanup(l)]);
      var key := s.names[l];
      && l !in s'.open && OthersStay(s, s', key, {l})
      && (key in s'.live <==> key in s.live && s.live[key] != l)
      && (key in s'.live ==> s'.live[key] == s.live[key])
  {
    RunRegistered(run);
    assert (run + [Cleanup(l)])[..|run|] == run;
  }

  /** A connection that breaks is closed at once, but stays registered until its session has ended. */
  lemma {:induction false} BrokenIsClosed(run: seq<Event>, l: nat)
    requires l in Run(START, run).names
    ensures var s, s' := Run(START, run), Run(START, run + [Break(l)]);
      s'.live == s.live && s'.names == s.names && forall m :: m in s'.open <==> m in s.open && m != l
  {
    assert (run + [Break(l)])[..|run|] == run;
  }

  /** Stopping the node closes every open link, and leaves the sessions to end by themselves. */
  lemma {:induction false} StopClosesAll(run: seq<Event>)
    ensures var s, s' := Run(START, run), Run(START, run + [StopAll]);
      s'.open == {} && s'.live == s.live && s'.names == s.names
  {
    RunRegistered(run);
    assert (run + [StopAll])[..|run|] == run;
    var s := Run(START, run);
    forall l | l in s.open ensures l in s.live.Values {
      assert s.live[s.names[l]] == l;
    }
  }

  /** The registry as the node keeps it. */
  class Registry {
    var names: map<nat, Bytes>
    var open: set<nat>
    var live: map<Bytes, nat>

    ghost function Now(): State
      reads this
    {
      State(names, open, live)
    }

    constructor ()
      ensures Now() == START
    {
      names, open, live := map[], {}, map[];
    }

    method Register(l: nat, peer: Name)
      requires l !in names
      modifies this
      ensures Now() == Step(old(Now()), Establish(l, peer))
      ensures Lower(peer) in live && live[Lower(peer)] == l && l in open
      ensures Lower(peer) in old(live) && old(live)[Lower(peer)] != l ==> old(live)[Lower(peer)] !in open
    {
      var key := Lower(peer);
      if key in live {
        open := open - {live[key]};
      }
      names, open, live := names[l := key], open + {l}, live[key := l];
    }

    method EndSession(l: nat)
      requires l in names
      modifies this
      ensures Now() == Step(old(Now()), Cleanup(l))
      ensures l !in open && !(names[l] in live && live[names[l]] == l)
      ensures forall key :: key in old(live) && old(live)[key] != l ==> key in live && live[key] == old(live)[key]
    {
      open := open - {l};
      var key := names[l];
      if key in live && live[key] == l {
        live := live - {key};
      }
    }
  }
}
