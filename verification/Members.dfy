/**
  Member lists of rooms: display names, sorted by bytes, distinct up to case.
 */
module Members {
  import opened ByteOrder
  import opened Names
  import opened Sorting

  const MAX_MEMBERS: nat := 32

  predicate IsMember(ms: seq<Name>, name: Name) {
    exists i :: 0 <= i < |ms| && EqualFold(ms[i], name)
  }

  function Filter(ms: seq<Name>, drop: Name -> bool): seq<Name> {
    if ms == [] then []
    else Filter(ms[..|ms| - 1], drop) + if drop(ms[|ms| - 1]) then [] else [ms[|ms| - 1]]
  }

  function FoldsTo(name: Name): Name -> bool {
    (m: Name) => EqualFold(m, name)
  }

  function RemovePeer(ms: seq<Name>, name: Name): seq<Name> {
    Filter(ms, FoldsTo(name))
  }

  /** The exact-match removal of the local commands. */
  function RemoveExact(ms: seq<Name>, name: Name): seq<Name> {
    Filter(ms, (m: Name) => m == name)
  }

  /** First spelling of each name, in order of appearance. */
  function FirstSpellings(ms: seq<Name>): seq<Name> {
    if ms == [] then [] else
      var s, m := FirstSpellings(ms[..|ms| - 1]), ms[|ms| - 1];
      if IsMember(s, m) then s else s + [m]
  }

  function InsertName(s: seq<Name>, x: Name): seq<Name> {
    if s == [] then [x]
    else if Less(x, s[|s| - 1]) then InsertName(s[..|s| - 1], x) + [s[|s| - 1]]
    else s + [x]
  }

  function SortNames(ms: seq<Name>): seq<Name> {
    if ms == [] then [] else InsertName(SortNames(ms[..|ms| - 1]), ms[|ms| - 1])
  }

  function Dedupe(ms: seq<Name>): seq<Name> {
    SortNames(FirstSpellings(ms))
  }

  // ---- what makes a member list good ----

  ghost predicate FoldDistinct(ms: seq<Name>) {
    forall i, j :: 0 <= i < j < |ms| ==> !EqualFold(ms[i], ms[j])
  }

  ghost predicate GoodList(ms: seq<Name>) {
    |ms| <= MAX_MEMBERS && Sorted(ms, Less) && FoldDistinct(ms)
  }

  /** Membership spelled out as the source's loop reads it. */
  method Contains(ms: seq<Name>, name: Name) returns (found: bool)
    ensures found == IsMember(ms, name)
  {
    for i := 0 to |ms|
      invariant forall j :: 0 <= j < i ==> !EqualFold(ms[j], name)
    {
      if EqualFold(ms[i], name) {
        return true;
      }
    }
    return false;
  }

  method WithoutPeer(ms: seq<Name>, name: Name) returns (out: seq<Name>)
    ensures out == RemovePeer(ms, name)
  {
    out := [];
    for i := 0 to |ms|
      invariant out == RemovePeer(ms[..i], name)
    {
      assert ms[..i + 1][..i] == ms[..i];
      if !EqualFold(ms[i], name) {
        out := out + [ms[i]];
      }
    }
    assert ms[..|ms|] == ms;
  }

  // ---- removal ----

  lemma {:induction false} FilterMember(ms: seq<Name>, drop: Name -> bool, m: Name)
    ensures m in Filter(ms, drop) <==> m in ms && !drop(m)
    ensures |Filter(ms, drop)| <= |ms|
  {
    if ms != [] {
      FilterMember(ms[..|ms| - 1], drop, m);
      assert ms == ms[..|ms| - 1] + [ms[|ms| - 1]];
    }
  }

  /** Removing members keeps order, distinctness and everybody else. */
  lemma {:induction false} FilterKeeps(ms: seq<Name>, drop: Name -> bool)
    requires Sorted(ms, Less) && FoldDistinct(ms)
    ensures Sorted(Filter(ms, drop), Less) && FoldDistinct(Filter(ms, drop)) && |Filter(ms, drop)| <= |ms|
  {
    if ms != [] {
      var init, m := ms[..|ms| - 1], ms[|ms| - 1];
      FilterKeeps(init, drop);
      var r := Filter(init, drop);
      forall i | 0 <= i < |r| ensures !Less(m, r[i]) && !EqualFold(r[i], m) {
        FilterMember(init, drop, r[i]);
        var j :| 0 <= j < |init| && init[j] == r[i];
        assert ms[j] == r[i];
      }
    }
  }

  // ---- sorting ----

  /** A sorted list may be followed by anything that is not before its elements. */
  lemma SortedSnoc(s: seq<Name>, y: Name)
    requires Sorted(s, Less) && forall i :: 0 <= i < |s| ==> !Less(y, s[i])
    ensures Sorted(s + [y], Less)
  {
  }

  lemma SortedInit(s: seq<Name>)
    requires Sorted(s, Less) && s != []
    ensures Sorted(s[..|s| - 1], Less)
    ensures forall i :: 0 <= i < |s| - 1 ==> !Less(s[|s| - 1], s[i])
  {
  }

  lemma {:induction false} InsertPermutes(s: seq<Name>, x: Name)
    ensures multiset(InsertName(s, x)) == multiset(s) + multiset{x}
  {
    if s != [] {
      assert s == s[..|s| - 1] + [s[|s| - 1]];
      InsertPermutes(s[..|s| - 1], x);
    }
  }

  lemma {:induction false} InsertKeeps(s: seq<Name>, x: Name)
    requires Sorted(s, Less)
    ensures Sorted(InsertName(s, x), Less)
  {
    if s != [] {
      var init, y := s[..|s| - 1], s[|s| - 1];
      SortedInit(s);
      if Less(x, y) {
        InsertKeeps(init, x);
        var r := InsertName(init, x);
        forall i | 0 <= i < |r| ensures !Less(y, r[i]) {
          LessAsymmetric(x, y);
          InsertPermutes(init, x);
          assert r[i] in multiset(r);
          assert r[i] == x || r[i] in init;
        }
        SortedSnoc(r, y);
      } else {
        forall i | 0 <= i < |s| ensures !Less(x, s[i]) {
          if i < |s| - 1 {
            NotLessTransitive(s[i], y, x);
          }
        }
        SortedSnoc(s, x);
      }
    }
  }

  lemma {:induction false} SortKeeps(ms: seq<Name>)
    ensures Sorted(SortNames(ms), Less) && multiset(SortNames(ms)) == multiset(ms)
  {
    if ms != [] {
      SortKeeps(ms[..|ms| - 1]);
      InsertKeeps(SortNames(ms[..|ms| - 1]), ms[|ms| - 1]);
      InsertPermutes(SortNames(ms[..|ms| - 1]), ms[|ms| - 1]);
      assert ms == ms[..|ms| - 1] + [ms[|ms| - 1]];
    }
  }

  /** Rearranging keeps names distinct and the list no longer. */
  lemma PermutationKeeps(s: seq<Name>, t: seq<Name>)
    requires multiset(s) == multiset(t) && FoldDistinct(s)
    ensures FoldDistinct(t) && |t| == |s| && forall m :: m in t <==> m in s
  {
    forall m ensures m in t <==> m in s {
      assert m in multiset(t) <==> m in multiset(s);
    }
    assert |multiset(s)| == |s| && |multiset(t)| == |t|;
    forall i, j | 0 <= i < j < |t| ensures !EqualFold(t[i], t[j]) {
      assert t[i] in s && t[j] in s;
      OncePerName(s, t[j]);
      assert t == t[..j] + t[j..] && t[i] in t[..j] && t[j] in t[j..];
      assert multiset(t)[t[j]] == multiset(t[..j])[t[j]] + multiset(t[j..])[t[j]];
    }
  }

  lemma {:induction false} OncePerName(s: seq<Name>, x: Name)
    requires FoldDistinct(s)
    ensures multiset(s)[x] <= 1
  {
    if s != [] {
      var init, y := s[..|s| - 1], s[|s| - 1];
      assert s == init + [y];
      OncePerName(init, x);
      assert y !in init;
    }
  }

  lemma {:induction false} FirstSpellingsMean(ms: seq<Name>)
    ensures FoldDistinct(FirstSpellings(ms)) && |FirstSpellings(ms)| <= |ms|
    ensures forall m :: m in FirstSpellings(ms) ==> m in ms
    ensures forall x :: IsMember(FirstSpellings(ms), x) <==> IsMember(ms, x)
  {
    if ms != [] {
      var init, m := ms[..|ms| - 1], ms[|ms| - 1];
      FirstSpellingsMean(init);
      assert ms == init + [m];
      var s, t := FirstSpellings(init), FirstSpellings(ms);
      forall x ensures IsMember(t, x) <==> IsMember(ms, x) {
        MemberSnoc(init, m, x);
        MemberSnoc(s, m, x);
      }
    }
  }

  lemma MemberSnoc(s: seq<Name>, m: Name, x: Name)
    ensures IsMember(s + [m], x) <==> IsMember(s, x) || EqualFold(m, x)
  {
    var t := s + [m];
    assert t[|s|] == m;
    if IsMember(s, x) {
      var i :| 0 <= i < |s| && EqualFold(s[i], x);
      assert EqualFold(t[i], x);
    }
  }

  lemma SameMembers(s: seq<Name>, t: seq<Name>, x: Name)
    requires forall m :: m in s <==> m in t
    ensures IsMember(s, x) <==> IsMember(t, x)
  {
    if IsMember(s, x) {
      var i :| 0 <= i < |s| && EqualFold(s[i], x);
      assert s[i] in t;
    }
    if IsMember(t, x) {
      var i :| 0 <= i < |t| && EqualFold(t[i], x);
      assert t[i] in s;
    }
  }

  /** Deduplicating gives a sorted list, distinct up to case, with the same people on it. */
  lemma DedupeMeans(ms: seq<Name>)
    ensures Sorted(Dedupe(ms), Less) && FoldDistinct(Dedupe(ms)) && |Dedupe(ms)| <= |ms|
    ensures forall x :: IsMember(Dedupe(ms), x) <==> IsMember(ms, x)
    ensures forall m :: m in Dedupe(ms) ==> m in ms
  {
    FirstSpellingsMean(ms);
    SortKeeps(FirstSpellings(ms));
    PermutationKeeps(FirstSpellings(ms), Dedupe(ms));
    forall x ensures IsMember(Dedupe(ms), x) <==> IsMember(ms, x) {
      SameMembers(FirstSpellings(ms), Dedupe(ms), x);
    }
  }

  /** Somebody's first spelling in a list. */
  ghost predicate FirstIn(ms: seq<Name>, i: nat, m: Name) {
    i < |ms| && ms[i] == m && forall j :: 0 <= j < i ==> !EqualFold(ms[j], m)
  }

  lemma {:induction false} FirstSpellingsAreFirst(ms: seq<Name>, m: Name)
    ensures m in FirstSpellings(ms) <==> exists i: nat :: FirstIn(ms, i, m)
  {
    if ms != [] {
      var init, x, k := ms[..|ms| - 1], ms[|ms| - 1], |ms| - 1;
      FirstSpellingsAreFirst(init, m);
      FirstSpellingsMean(init);
      assert forall i: nat :: i < k ==> (FirstIn(ms, i, m) <==> FirstIn(init, i, m));
      assert FirstIn(ms, k, m) <==> m == x && !IsMember(init, m);
    }
  }

  /** Of several spellings of a name the first one given is kept. */
  lemma DedupeKeepsFirst(ms: seq<Name>, m: Name)
    ensures m in Dedupe(ms) <==> exists i: nat :: FirstIn(ms, i, m)
  {
    FirstSpellingsMean(ms);
    SortKeeps(FirstSpellings(ms));
    PermutationKeeps(FirstSpellings(ms), Dedupe(ms));
    FirstSpellingsAreFirst(ms, m);
  }

  /** The people on a list: its names up to case. */
  function People(ms: seq<Name>): set<Bytes> {
    set i | 0 <= i < |ms| :: Lower(ms[i])
  }

  lemma PeopleAre(ms: seq<Name>, x: Name)
    ensures Lower(x) in People(ms) <==> IsMember(ms, x)
  {
    if IsMember(ms, x) {
      var i :| 0 <= i < |ms| && EqualFold(ms[i], x);
      assert Lower(ms[i]) in People(ms);
    }
  }

  /** A list distinct up to case is as long as there are people on it. */
  lemma {:induction false} PeopleCount(ms: seq<Name>)
    requires FoldDistinct(ms)
    ensures |People(ms)| == |ms|
  {
    if ms != [] {
      var init, m := ms[..|ms| - 1], ms[|ms| - 1];
      PeopleCount(init);
      assert People(ms) == People(init) + {Lower(m)};
      assert Lower(m) !in People(init);
    }
  }

  /** Deduplicating keeps everybody, once. */
  lemma DedupePeople(ms: seq<Name>)
    ensures People(Dedupe(ms)) == People(ms) && |Dedupe(ms)| == |People(ms)|
  {
    DedupeMeans(ms);
    PeopleCount(Dedupe(ms));
    forall i | 0 <= i < |ms| ensures Lower(ms[i]) in People(Dedupe(ms)) {
      assert EqualFold(ms[i], ms[i]);
      PeopleAre(Dedupe(ms), ms[i]);
    }
    forall x | x in People(Dedupe(ms)) ensures x in People(ms) {
      var i :| 0 <= i < |Dedupe(ms)| && x == Lower(Dedupe(ms)[i]);
      assert EqualFold(Dedupe(ms)[i], Dedupe(ms)[i]);
      PeopleAre(ms, Dedupe(ms)[i]);
    }
  }

  /** Adding somebody new and sorting again keeps a list good. */
  lemma {:induction false} AddMemberKeeps(ms: seq<Name>, x: Name)
    requires GoodList(ms) && !IsMember(ms, x) && |ms| < MAX_MEMBERS
    ensures GoodList(SortNames(ms + [x]))
    ensures forall m :: m in SortNames(ms + [x]) <==> m in ms || m == x
  {
    assert FoldDistinct(ms + [x]);
    SortKeeps(ms + [x]);
    PermutationKeeps(ms + [x], SortNames(ms + [x]));
  }

  // ---- sorting in place ----

  lemma LastIsGreatest(s: seq<Name>, m: Name)
    requires Sorted(s, Less) && m in s
    ensures !Less(s[|s| - 1], m)
  {
    LessIrreflexive(m);
  }

  lemma SameLast(s: seq<Name>, t: seq<Name>)
    requires Sorted(s, Less) && Sorted(t, Less) && s != [] && t != []
    requires s[|s| - 1] in t && t[|t| - 1] in s
    ensures s[|s| - 1] == t[|t| - 1]
  {
    LastIsGreatest(t, s[|s| - 1]);
    LastIsGreatest(s, t[|t| - 1]);
    LessTotal(s[|s| - 1], t[|t| - 1]);
  }

  lemma DropLast(s: seq<Name>)
    requires s != []
    ensures multiset(s[..|s| - 1]) == multiset(s) - multiset{s[|s| - 1]}
  {
    assert s == s[..|s| - 1] + [s[|s| - 1]];
  }

  lemma SameRest(s: seq<Name>, t: seq<Name>)
    requires Sorted(s, Less) && Sorted(t, Less) && multiset(s) == multiset(t) && s != []
    ensures t != [] && s[|s| - 1] == t[|t| - 1]
    ensures multiset(s[..|s| - 1]) == multiset(t[..|t| - 1])
  {
    assert |multiset(s)| == |s| && |multiset(t)| == |t|;
    assert s[|s| - 1] in multiset(t) && t[|t| - 1] in multiset(s);
    SameLast(s, t);
    DropLast(s);
    DropLast(t);
  }

  /** Sorted lists with the same elements are equal, so any correct sort computes SortNames. */
  lemma {:induction false} SortedIsUnique(s: seq<Name>, t: seq<Name>)
    requires Sorted(s, Less) && Sorted(t, Less) && multiset(s) == multiset(t)
    ensures s == t
  {
    if s == [] {
      assert |multiset(t)| == |t|;
    } else {
      SameRest(s, t);
      SortedInit(s);
      SortedInit(t);
      SortedIsUnique(s[..|s| - 1], t[..|t| - 1]);
      assert s == s[..|s| - 1] + [s[|s| - 1]] && t == t[..|t| - 1] + [t[|t| - 1]];
    }
  }

  lemma LessIsOrder()
    ensures Order(Less)
  {
    forall a: Bytes, b: Bytes | Less(a, b) ensures !Less(b, a) {
      LessAsymmetric(a, b);
    }
    forall a: Bytes, b: Bytes, c: Bytes | !Less(b, a) && !Less(c, b) ensures !Less(c, a) {
      NotLessTransitive(a, b, c);
    }
  }

  method SortInPlace(a: array<Bytes>)
    modifies a
    ensures a[..] == SortNames(old(a[..]))
  {
    LessIsOrder();
    InsertionSort(a, Less);
    SortKeeps(old(a[..]));
    SortedIsUnique(a[..], SortNames(old(a[..])));
  }

  method DedupeMembers(ms: seq<Name>) returns (out: seq<Name>)
    ensures out == Dedupe(ms)
  {
    var seen: set<Bytes>, first := {}, [];
    for i := 0 to |ms|
      invariant first == FirstSpellings(ms[..i])
      invariant forall x :: Lower(x) in seen <==> IsMember(first, x)
    {
      assert ms[..i + 1][..i] == ms[..i];
      var lower := Lower(ms[i]);
      if lower !in seen {
        forall x ensures IsMember(first + [ms[i]], x) <==> Lower(x) in seen + {lower} {
          MemberSnoc(first, ms[i], x);
        }
        seen := seen + {lower};
        first := first + [ms[i]];
      }
    }
    assert ms[..|ms|] == ms;
    var a := new Bytes[|first|](i requires 0 <= i < |first| => first[i]);
    assert a[..] == first;
    SortInPlace(a);
    out := a[..];
  }
}
