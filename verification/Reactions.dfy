/**
  Reactions are a toggle set replicated at every member. What a message carries
  depends only on how often each pair was toggled, not on the order.
 */
module Reactions {
  import opened OptionType
  import opened ByteOrder
  import opened Names
  import opened RoomDb

  /** The identity of a reaction: who, up to case, and which emoji. */
  datatype Pair = Pair(who: Bytes, emoji: Bytes)

  function PairOf(r: Reaction): Pair {
    Pair(Lower(r.sender), r.emoji)
  }

  predicate Present(rs: seq<Reaction>, p: Pair) {
    exists i :: 0 <= i < |rs| && PairOf(rs[i]) == p
  }

  ghost predicate NoRepeats(rs: seq<Reaction>) {
    forall i, j :: 0 <= i < j < |rs| ==> PairOf(rs[i]) != PairOf(rs[j])
  }

  /** The reactions after a sequence of toggles; a refused toggle changes nothing. */
  function AfterToggles(ts: seq<Reaction>): seq<Reaction> {
    if ts == [] then [] else
      var rs, t := AfterToggles(ts[..|ts| - 1]), ts[|ts| - 1];
      match Toggled(rs, t.sender, t.emoji)
      case None => rs
      case Some(rs') => rs'
  }

  /** No toggle was refused for lack of room. */
  ghost predicate NeverFull(ts: seq<Reaction>) {
    ts == [] || (
      var before, t := ts[..|ts| - 1], ts[|ts| - 1];
      NeverFull(before) && Toggled(AfterToggles(before), t.sender, t.emoji).Some?)
  }

  function Count(ts: seq<Reaction>, p: Pair): nat {
    if ts == [] then 0
    else Count(ts[..|ts| - 1], p) + if PairOf(ts[|ts| - 1]) == p then 1 else 0
  }

  /** Removing the reaction at i removes its pair and no other. */
  lemma RemovalFlips(rs: seq<Reaction>, i: nat, p: Pair)
    requires NoRepeats(rs) && i < |rs|
    ensures var rs' := rs[..i] + rs[i + 1..];
      NoRepeats(rs') && (Present(rs', p) <==> Present(rs, p) && p != PairOf(rs[i]))
  {
    var rs' := rs[..i] + rs[i + 1..];
    forall a, b | 0 <= a < b < |rs'| ensures PairOf(rs'[a]) != PairOf(rs'[b]) {
      assert PairOf(rs[if a < i then a else a + 1]) != PairOf(rs[if b < i then b else b + 1]);
    }
    if Present(rs', p) {
      var j :| 0 <= j < |rs'| && PairOf(rs'[j]) == p;
      var k := if j < i then j else j + 1;
      assert PairOf(rs[k]) == p && PairOf(rs[i]) != PairOf(rs[k]);
    }
    if Present(rs, p) && p != PairOf(rs[i]) {
      var k :| 0 <= k < |rs| && PairOf(rs[k]) == p;
      assert PairOf(rs'[if k < i then k else k - 1]) == p;
    }
  }

  lemma AppendFlips(rs: seq<Reaction>, t: Reaction, p: Pair)
    requires NoRepeats(rs) && !Present(rs, PairOf(t))
    ensures NoRepeats(rs + [t]) && (Present(rs + [t], p) <==> Present(rs, p) || p == PairOf(t))
  {
    var rs' := rs + [t];
    assert rs'[|rs|] == t;
    forall j | 0 <= j < |rs| ensures rs'[j] == rs[j] {
    }
  }

  /** A toggle flips the presence of its own pair and of no other. */
  lemma ToggleFlips(rs: seq<Reaction>, t: Reaction, rs': seq<Reaction>, p: Pair)
    requires NoRepeats(rs) && Toggled(rs, t.sender, t.emoji) == Some(rs')
    ensures NoRepeats(rs')
    ensures Present(rs', p) <==> if PairOf(t) == p then !Present(rs, p) else Present(rs, p)
  {
    var i := FindReaction(rs, t.sender, t.emoji);
    if i < |rs| {
      assert PairOf(rs[i]) == PairOf(t);
      RemovalFlips(rs, i, p);
    } else {
      assert forall j :: 0 <= j < |rs| ==> PairOf(rs[j]) != PairOf(t);
      AppendFlips(rs, Reaction(t.sender, t.emoji), p);
    }
  }

  /** Exactly the pairs toggled an odd number of times are there, each once. */
  lemma {:induction false} OddTogglesRemain(ts: seq<Reaction>, p: Pair)
    requires NeverFull(ts)
    ensures NoRepeats(AfterToggles(ts))
    ensures Present(AfterToggles(ts), p) <==> Count(ts, p) % 2 == 1
  {
    if ts != [] {
      var before, t := ts[..|ts| - 1], ts[|ts| - 1];
      OddTogglesRemain(before, p);
      ToggleFlips(AfterToggles(before), t, AfterToggles(ts), p);
    }
  }

  lemma {:induction false} CountIsMultiplicity(ts: seq<Reaction>, us: seq<Reaction>, p: Pair)
    requires multiset(Pairs(ts)) == multiset(Pairs(us))
    ensures Count(ts, p) == Count(us, p)
  {
    CountPairs(ts, p);
    CountPairs(us, p);
  }

  function Pairs(ts: seq<Reaction>): seq<Pair> {
    seq(|ts|, i requires 0 <= i < |ts| => PairOf(ts[i]))
  }

  lemma {:induction false} CountPairs(ts: seq<Reaction>, p: Pair)
    ensures Count(ts, p) == multiset(Pairs(ts))[p]
  {
    if ts != [] {
      CountPairs(ts[..|ts| - 1], p);
      assert Pairs(ts) == Pairs(ts[..|ts| - 1]) + [PairOf(ts[|ts| - 1])];
    }
  }

  /**
    Members that saw the same toggles in different orders, with whatever spelling
    of the names, show the same reactions.
   */
  lemma {:induction false} MembersAgree(ts: seq<Reaction>, us: seq<Reaction>)
    requires NeverFull(ts) && NeverFull(us) && multiset(Pairs(ts)) == multiset(Pairs(us))
    ensures forall p :: Present(AfterToggles(ts), p) <==> Present(AfterToggles(us), p)
  {
    forall p ensures Present(AfterToggles(ts), p) <==> Present(AfterToggles(us), p) {
      OddTogglesRemain(ts, p);
      OddTogglesRemain(us, p);
      CountIsMultiplicity(ts, us, p);
    }
  }

  // ---- a condition that does not depend on the order ----

  function PairSet(ts: seq<Reaction>): set<Pair> {
    set i | 0 <= i < |ts| :: PairOf(ts[i])
  }

  lemma PairSetSnoc(init: seq<Reaction>, r: Reaction)
    ensures PairSet(init + [r]) == PairSet(init) + {PairOf(r)}
  {
    var rs := init + [r];
    forall p ensures p in PairSet(rs) <==> p in PairSet(init) || p == PairOf(r) {
      if p in PairSet(rs) {
        var i :| 0 <= i < |rs| && PairOf(rs[i]) == p;
        assert i < |init| ==> init[i] == rs[i];
      }
      if p in PairSet(init) {
        var i :| 0 <= i < |init| && PairOf(init[i]) == p;
        assert rs[i] == init[i];
      }
      assert rs[|init|] == r;
    }
  }

  lemma {:induction false} AsManyPairs(rs: seq<Reaction>)
    requires NoRepeats(rs)
    ensures |PairSet(rs)| == |rs|
  {
    if rs != [] {
      var init, r := rs[..|rs| - 1], rs[|rs| - 1];
      AsManyPairs(init);
      assert rs == init + [r];
      PairSetSnoc(init, r);
      assert PairOf(r) !in PairSet(init);
    }
  }

  lemma SubsetIsSmaller(a: set<Pair>, b: set<Pair>)
    requires a <= b
    ensures |a| <= |b|
  {
    assert b == a + (b - a);
  }

  /** As long as a message sees at most 128 different reactions in all, no toggle is ever refused. */
  lemma {:induction false} FewPairsNeverFull(ts: seq<Reaction>, all: set<Pair>)
    requires PairSet(ts) <= all && |all| <= MAX_REACTIONS
    ensures NeverFull(ts) && NoRepeats(AfterToggles(ts)) && PairSet(AfterToggles(ts)) <= all
  {
    if ts != [] {
      var n := |ts| - 1;
      var before, t := ts[..n], ts[n];
      forall p | p in PairSet(before) ensures p in PairSet(ts) {
        var i :| 0 <= i < |before| && PairOf(before[i]) == p;
        assert PairOf(ts[i]) == p;
      }
      assert PairOf(ts[n]) in PairSet(ts);
      FewPairsNeverFull(before, all);
      RoomForOneMore(AfterToggles(before), t, all);
    }
  }

  lemma RoomForOneMore(rs: seq<Reaction>, t: Reaction, all: set<Pair>)
    requires NoRepeats(rs) && PairSet(rs) <= all && PairOf(t) in all && |all| <= MAX_REACTIONS
    ensures Toggled(rs, t.sender, t.emoji).Some?
    ensures var rs' := Toggled(rs, t.sender, t.emoji).value; NoRepeats(rs') && PairSet(rs') <= all
  {
    var i := FindReaction(rs, t.sender, t.emoji);
    AsManyPairs(rs);
    if i == |rs| {
      assert PairOf(t) !in PairSet(rs);
      SubsetIsSmaller(PairSet(rs) + {PairOf(t)}, all);
    }
    var rs' := Toggled(rs, t.sender, t.emoji).value;
    ToggleFlips(rs, t, rs', PairOf(t));
    forall p | p in PairSet(rs') ensures p in all {
      ToggleFlips(rs, t, rs', p);
      assert Present(rs', p);
      if p != PairOf(t) {
        var j :| 0 <= j < |rs| && PairOf(rs[j]) == p;
        assert p in PairSet(rs);
      }
    }
  }

  /** Under that condition agreement holds for every pair of orders. */
  lemma MembersAgreeWithin(ts: seq<Reaction>, us: seq<Reaction>)
    requires multiset(Pairs(ts)) == multiset(Pairs(us)) && |PairSet(ts)| <= MAX_REACTIONS
    ensures forall p :: Present(AfterToggles(ts), p) <==> Present(AfterToggles(us), p)
  {
    forall p | p in PairSet(us) ensures p in PairSet(ts) {
      var i :| 0 <= i < |us| && PairOf(us[i]) == p;
      assert Pairs(us)[i] == p;
      assert p in multiset(Pairs(ts));
      var j :| 0 <= j < |ts| && Pairs(ts)[j] == p;
    }
    FewPairsNeverFull(ts, PairSet(ts));
    FewPairsNeverFull(us, PairSet(ts));
    MembersAgree(ts, us);
  }
}
