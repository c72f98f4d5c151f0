/**
 Ordering the classes of a stub file so that a base defined in the file comes before
 the classes that inherit from it.
 */
module TopoSort {
  datatype Base = Name(id: string) | OtherBase(text: string)

  datatype ClassDef = ClassDef(name: string, bases: seq<Base>, body: string)

  function Names(classes: seq<ClassDef>): set<string> {
    set c | c in classes :: c.name
  }

  /** The bases of a class that the file itself defines; an attribute or a subscript is never one. */
  function LocalBases(c: ClassDef, local: set<string>): set<string> {
    set b | b in c.bases && b.Name? && b.id in local :: b.id
  }

  predicate Ready(c: ClassDef, local: set<string>, placed: set<string>) {
    LocalBases(c, local) <= placed
  }

  predicate NoneReady(cs: seq<ClassDef>, local: set<string>, placed: set<string>) {
    forall c :: c in cs ==> !Ready(c, local, placed)
  }

  /** The classes of `cs`, in their order, that still lack a base. */
  function Stuck(cs: seq<ClassDef>, local: set<string>, placed: set<string>): seq<ClassDef> {
    if cs == [] then []
    else (if Ready(cs[0], local, placed) then [] else [cs[0]]) + Stuck(cs[1..], local, placed)
  }

  /** A set of names that lets in every class whose local bases it holds. */
  ghost predicate Closed(classes: seq<ClassDef>, names: set<string>) {
    forall c :: c in classes && Ready(c, Names(classes), names) ==> c.name in names
  }

  ghost predicate LeastClosed(classes: seq<ClassDef>, names: set<string>) {
    Closed(classes, names) && forall other :: Closed(classes, other) ==> names <= other
  }

  predicate BasesFirst(ordered: seq<ClassDef>, local: set<string>) {
    forall k :: 0 <= k < |ordered| ==> Ready(ordered[k], local, Names(ordered[..k]))
  }

  /** What the loops keep, `remaining` being what no pass has placed yet. */
  ghost predicate Sorting(classes: seq<ClassDef>, ordered: seq<ClassDef>, remaining: seq<ClassDef>,
      placed: set<string>) {
    && multiset(ordered) + multiset(remaining) == multiset(classes)
    && placed == Names(ordered)
    && BasesFirst(ordered, Names(classes))
    && (forall other :: Closed(classes, other) ==> placed <= other)
    && (forall final :: placed <= final ==>
          Stuck(remaining, Names(classes), final) == Stuck(classes, Names(classes), final))
  }

  lemma {:induction false} StuckConcat(a: seq<ClassDef>, b: seq<ClassDef>, local: set<string>, placed: set<string>)
    ensures Stuck(a + b, local, placed) == Stuck(a, local, placed) + Stuck(b, local, placed)
  {
    if a == [] {
      assert a + b == b;
    } else {
      assert (a + b)[1..] == a[1..] + b;
      StuckConcat(a[1..], b, local, placed);
    }
  }

  lemma StuckSkips(before: seq<ClassDef>, c: ClassDef, after: seq<ClassDef>, local: set<string>, placed: set<string>)
    requires Ready(c, local, placed)
    ensures Stuck(before + [c] + after, local, placed) == Stuck(before + after, local, placed)
  {
    StuckConcat(before + [c], after, local, placed);
    StuckConcat(before, [c], local, placed);
    StuckConcat(before, after, local, placed);
    assert [c][1..] == [];
    assert Stuck([c], local, placed) == [];
  }

  lemma {:induction false} AllStuck(cs: seq<ClassDef>, local: set<string>, placed: set<string>)
    requires NoneReady(cs, local, placed)
    ensures Stuck(cs, local, placed) == cs
  {
    if cs != [] { AllStuck(cs[1..], local, placed); }
  }

  lemma InMultiset(c: ClassDef, part: seq<ClassDef>, rest: seq<ClassDef>, classes: seq<ClassDef>)
    requires multiset(part) + multiset(rest) == multiset(classes)
    ensures c in classes <==> c in part || c in rest
  {
    assert c in classes <==> c in multiset(classes);
  }

  /** One class whose bases are all placed moves to the end of the order. */
  lemma PlaceOne(classes: seq<ClassDef>, ordered: seq<ClassDef>, before: seq<ClassDef>, c: ClassDef,
      after: seq<ClassDef>, placed: set<string>)
    requires Sorting(classes, ordered, before + [c] + after, placed)
    requires Ready(c, Names(classes), placed)
    ensures Sorting(classes, ordered + [c], before + after, placed + {c.name})
  {
    var local := Names(classes);
    assert multiset(before + [c] + after) == multiset(before) + multiset{c} + multiset(after);
    InMultiset(c, ordered, before + [c] + after, classes);
    assert c in before + [c] + after by { assert (before + [c] + after)[|before|] == c; }
    assert Names(ordered + [c]) == placed + {c.name};
    forall k | 0 <= k < |ordered + [c]| ensures Ready((ordered + [c])[k], local, Names((ordered + [c])[..k])) {
      if k < |ordered| {
        assert (ordered + [c])[..k] == ordered[..k];
      } else {
        assert (ordered + [c])[..k] == ordered;
      }
    }
    forall final | placed + {c.name} <= final
      ensures Stuck(before + after, local, final) == Stuck(classes, local, final)
    {
      StuckSkips(before, c, after, local, final);
    }
  }

  /** When a pass places nothing, or nothing is left, the placed names are the least
      closed set. */
  lemma PlacedIsLeast(classes: seq<ClassDef>, ordered: seq<ClassDef>, remaining: seq<ClassDef>, placed: set<string>)
    requires Sorting(classes, ordered, remaining, placed)
    requires NoneReady(remaining, Names(classes), placed)
    ensures LeastClosed(classes, placed) && remaining == Stuck(classes, Names(classes), placed)
  {
    forall c | c in classes && Ready(c, Names(classes), placed) ensures c.name in placed {
      InMultiset(c, ordered, remaining, classes);
    }
    AllStuck(remaining, Names(classes), placed);
  }

  /** A pass stands before class `i` of `remaining`. */
  ghost predicate PassAt(classes: seq<ClassDef>, remaining: seq<ClassDef>, i: nat, ordered: seq<ClassDef>,
                         leftover: seq<ClassDef>, placed: set<string>, progress: bool, goal: seq<ClassDef>) {
    && i <= |remaining|
    && ordered + PassPlaced(remaining[i..], Names(classes), placed) == goal
    && Sorting(classes, ordered, leftover + remaining[i..], placed)
    && |leftover| <= i && (progress ==> |leftover| < i)
    && (!progress ==> leftover == remaining[..i] && NoneReady(leftover, Names(classes), placed))
  }

  lemma PassPlaces(classes: seq<ClassDef>, remaining: seq<ClassDef>, i: nat, ordered: seq<ClassDef>,
                   leftover: seq<ClassDef>, placed: set<string>, progress: bool, goal: seq<ClassDef>)
    requires i < |remaining| && PassAt(classes, remaining, i, ordered, leftover, placed, progress, goal)
    requires Ready(remaining[i], Names(classes), placed)
    ensures PassAt(classes, remaining, i + 1, ordered + [remaining[i]], leftover, placed + {remaining[i].name}, true,
                   goal)
  {
    assert leftover + remaining[i..] == leftover + [remaining[i]] + remaining[i + 1..];
    PlaceOne(classes, ordered, leftover, remaining[i], remaining[i + 1..], placed);
    var later := PassPlaced(remaining[i + 1..], Names(classes), placed + {remaining[i].name});
    assert ordered + ([remaining[i]] + later) == (ordered + [remaining[i]]) + later;
  }

  lemma PassKeeps(classes: seq<ClassDef>, remaining: seq<ClassDef>, i: nat, ordered: seq<ClassDef>,
                  leftover: seq<ClassDef>, placed: set<string>, progress: bool, goal: seq<ClassDef>)
    requires i < |remaining| && PassAt(classes, remaining, i, ordered, leftover, placed, progress, goal)
    requires !Ready(remaining[i], Names(classes), placed)
    ensures PassAt(classes, remaining, i + 1, ordered, leftover + [remaining[i]], placed, progress, goal)
  {
    assert leftover + remaining[i..] == (leftover + [remaining[i]]) + remaining[i + 1..];
    if !progress { assert remaining[..i + 1] == leftover + [remaining[i]]; }
  }

  /** What one pass over `cs` places, in order. */
  function PassPlaced(cs: seq<ClassDef>, local: set<string>, placed: set<string>): seq<ClassDef> {
    if cs == [] then []
    else if Ready(cs[0], local, placed) then [cs[0]] + PassPlaced(cs[1..], local, placed + {cs[0].name})
    else PassPlaced(cs[1..], local, placed)
  }

  /** One pass over what remains; a pass without progress leaves everything as it was. */
  method Pass(classes: seq<ClassDef>, ordered: seq<ClassDef>, remaining: seq<ClassDef>, placed: set<string>)
    returns (ordered': seq<ClassDef>, leftover: seq<ClassDef>, placed': set<string>, progress: bool)
    requires Sorting(classes, ordered, remaining, placed)
    ensures Sorting(classes, ordered', leftover, placed')
    ensures progress ==> |leftover| < |remaining|
    ensures !progress ==> leftover == remaining && NoneReady(leftover, Names(classes), placed')
    ensures ordered' == ordered + PassPlaced(remaining, Names(classes), placed)
  {
    ordered', placed', leftover, progress := ordered, placed, [], false;
    ghost var goal := ordered + PassPlaced(remaining, Names(classes), placed);
    var i := 0;
    assert leftover + remaining[i..] == remaining;
    while i < |remaining|
      invariant 0 <= i && PassAt(classes, remaining, i, ordered', leftover, placed', progress, goal)
      decreases |remaining| - i
    {
      var cls := remaining[i];
      if Ready(cls, Names(classes), placed') {
        PassPlaces(classes, remaining, i, ordered', leftover, placed', progress, goal);
        ordered', placed', progress := ordered' + [cls], placed' + {cls.name}, true;
      } else {
        PassKeeps(classes, remaining, i, ordered', leftover, placed', progress, goal);
        leftover := leftover + [cls];
      }
      i := i + 1;
    }
    assert leftover + remaining[i..] == leftover && remaining[..i] == remaining;
  }

  // --- the order in terms of the bases themselves ---

  predicate Inherits(c: ClassDef, name: string) {
    Name(name) in c.bases
  }

  predicate Defines(classes: seq<ClassDef>, name: string) {
    exists k :: 0 <= k < |classes| && classes[k].name == name
  }

  lemma DefinesIff(classes: seq<ClassDef>, name: string)
    ensures Defines(classes, name) <==> name in Names(classes)
  {
  }

  lemma LocalBasesIff(c: ClassDef, classes: seq<ClassDef>, name: string)
    ensures name in LocalBases(c, Names(classes)) <==> Inherits(c, name) && Defines(classes, name)
  {
    DefinesIff(classes, name);
  }

  /** Before `cut`, a class comes after some definition of each base that the file defines;
      from `cut` on, every class has a base that the file defines and the part before `cut`
      does not. */
  ghost predicate InBaseOrder(classes: seq<ClassDef>, ordered: seq<ClassDef>, cut: nat)
    requires cut <= |ordered|
  {
    && (forall k, name :: 0 <= k < cut && Inherits(ordered[k], name) && Defines(classes, name) ==>
          Defines(ordered[..k], name))
    && (forall k :: cut <= k < |ordered| ==> LacksBase(classes, ordered[..cut], ordered[k]))
  }

  ghost predicate LacksBase(classes: seq<ClassDef>, placed: seq<ClassDef>, c: ClassDef) {
    exists name :: Inherits(c, name) && Defines(classes, name) && !Defines(placed, name)
  }

  lemma SortedInBaseOrder(classes: seq<ClassDef>, ordered: seq<ClassDef>, cut: nat)
    requires Sorted(classes, ordered, cut)
    ensures InBaseOrder(classes, ordered, cut)
  {
    var front := ordered[..cut];
    forall k, name | 0 <= k < cut && Inherits(ordered[k], name) && Defines(classes, name)
      ensures Defines(ordered[..k], name)
    {
      LocalBasesIff(ordered[k], classes, name);
      assert front[..k] == ordered[..k] && front[k] == ordered[k];
      assert Ready(front[k], Names(classes), Names(front[..k]));
      DefinesIff(ordered[..k], name);
    }
    forall k | cut <= k < |ordered| ensures LacksBase(classes, front, ordered[k]) {
      assert ordered[cut..][k - cut] == ordered[k];
      StuckSound(classes, Names(classes), Names(front), ordered[k]);
      var name :| name in LocalBases(ordered[k], Names(classes)) && name !in Names(front);
      LocalBasesIff(ordered[k], classes, name);
      DefinesIff(front, name);
    }
  }

  /** `at` says where in `cs` each of the stuck ones stands, in increasing order. */
  predicate Places(at: seq<nat>, stuck: seq<ClassDef>, cs: seq<ClassDef>) {
    && |at| == |stuck|
    && (forall i :: 0 <= i < |at| ==> at[i] < |cs| && cs[at[i]] == stuck[i])
    && (forall i, j :: 0 <= i < j < |at| ==> at[i] < at[j])
  }

  function Shift(at: seq<nat>): seq<nat> {
    seq(|at|, i requires 0 <= i < |at| => at[i] + 1)
  }

  lemma PlacesShift(at: seq<nat>, stuck: seq<ClassDef>, cs: seq<ClassDef>)
    requires cs != [] && Places(at, stuck, cs[1..])
    ensures Places(Shift(at), stuck, cs) && Places([0] + Shift(at), [cs[0]] + stuck, cs)
  {
    forall i | 0 <= i < |at| ensures cs[Shift(at)[i]] == stuck[i] {
      assert cs[1..][at[i]] == cs[at[i] + 1];
    }
  }

  /** The classes that the fallback appends stand in the order of the file. */
  lemma {:induction false} StuckInOrder(cs: seq<ClassDef>, local: set<string>, placed: set<string>)
    returns (at: seq<nat>)
    ensures Places(at, Stuck(cs, local, placed), cs)
  {
    if cs == [] { return []; }
    var rest := StuckInOrder(cs[1..], local, placed);
    var stuck := Stuck(cs[1..], local, placed);
    PlacesShift(rest, stuck, cs);
    if Ready(cs[0], local, placed) {
      assert Stuck(cs, local, placed) == stuck;
      at := Shift(rest);
    } else {
      assert Stuck(cs, local, placed) == [cs[0]] + stuck;
      at := [0] + Shift(rest);
    }
  }

  /** `cut` is where the fallback starts.  The output is a permutation: first the classes
      of the least closed set, each after its local bases, then the others as they came. */
  method SortClasses(classes: seq<ClassDef>) returns (ordered: seq<ClassDef>, ghost cut: nat)
    ensures Sorted(classes, ordered, cut)
    ensures InBaseOrder(classes, ordered, cut)
    ensures cut < |ordered| <==> !Orderable(classes)
    ensures InBaseOrder(classes, classes, |classes|) ==> ordered == classes
  {
    var placed: set<string> := {};
    ordered := [];
    var remaining := classes;
    while remaining != []
      invariant Sorting(classes, ordered, remaining, placed)
      invariant InBaseOrder(classes, classes, |classes|) ==>
                  (ordered == [] && remaining == classes) || (ordered == classes && remaining == [])
      decreases |remaining|
    {
      var progress;
      ordered, remaining, placed, progress := Pass(classes, ordered, remaining, placed);
      if InBaseOrder(classes, classes, |classes|) { FirstPassPlacesAll(classes, ordered, remaining, placed); }
      if !progress {
        PlacedIsLeast(classes, ordered, remaining, placed);
        cut := |ordered|;
        assert (ordered + remaining)[..cut] == ordered && (ordered + remaining)[cut..] == remaining;
        ordered := ordered + remaining;
        FallbackIff(classes, ordered, cut);
        SortedInBaseOrder(classes, ordered, cut);
        return;
      }
    }
    PlacedIsLeast(classes, ordered, remaining, placed);
    cut := |ordered|;
    assert ordered[..cut] == ordered;
    FallbackIff(classes, ordered, cut);
    SortedInBaseOrder(classes, ordered, cut);
  }

  /** Classes in order already are placed as they stand. */
  lemma {:induction false} AllPlaced(classes: seq<ClassDef>, k: nat)
    requires BasesFirst(classes, Names(classes)) && k <= |classes|
    ensures PassPlaced(classes[k..], Names(classes), Names(classes[..k])) == classes[k..]
    decreases |classes| - k
  {
    if k < |classes| {
      AllPlaced(classes, k + 1);
      assert Names(classes[..k + 1]) == Names(classes[..k]) + {classes[k].name} by {
        assert classes[..k + 1] == classes[..k] + [classes[k]];
      }
      assert classes[k..][1..] == classes[k + 1..];
    }
  }

  lemma FirstPassPlacesAll(classes: seq<ClassDef>, ordered: seq<ClassDef>, remaining: seq<ClassDef>,
      placed: set<string>)
    requires Sorting(classes, ordered, remaining, placed) && InBaseOrder(classes, classes, |classes|)
    requires ordered == [] + PassPlaced(classes, Names(classes), {})
    ensures ordered == classes && remaining == []
  {
    BasesFirstAlready(classes);
    AllPlaced(classes, 0);
    assert classes[0..] == classes && classes[..0] == [] && Names(classes[..0]) == {};
    assert multiset(remaining) == multiset{};
    assert |multiset(remaining)| == |remaining|;
  }

  lemma BasesFirstAlready(classes: seq<ClassDef>)
    requires InBaseOrder(classes, classes, |classes|)
    ensures BasesFirst(classes, Names(classes))
  {
    forall k, b | 0 <= k < |classes| && b in LocalBases(classes[k], Names(classes)) ensures b in Names(classes[..k]) {
      LocalBasesIff(classes[k], classes, b);
      DefinesIff(classes[..k], b);
    }
  }

  // --- when the fallback is taken ---

  /** No class inherits from itself through bases of the file: bases rank lower. */
  ghost predicate Ranked(classes: seq<ClassDef>, rank: map<string, nat>) {
    && Names(classes) <= rank.Keys
    && forall c, b :: c in classes && b in LocalBases(c, Names(classes)) ==> rank[b] < rank[c.name]
  }

  ghost predicate Acyclic(classes: seq<ClassDef>) {
    exists rank :: Ranked(classes, rank)
  }

  predicate DistinctNames(classes: seq<ClassDef>) {
    forall i, j :: 0 <= i < j < |classes| ==> classes[i].name != classes[j].name
  }

  lemma {:induction false} RankedIsPlaced(classes: seq<ClassDef>, rank: map<string, nat>, placed: set<string>,
      c: ClassDef)
    requires Ranked(classes, rank) && Closed(classes, placed) && c in classes
    ensures c.name in placed
    decreases rank[c.name]
  {
    forall b | b in LocalBases(c, Names(classes)) ensures b in placed {
      var base :| base in classes && base.name == b;
      RankedIsPlaced(classes, rank, placed, base);
    }
  }

  lemma {:induction false} StuckSound(cs: seq<ClassDef>, local: set<string>, placed: set<string>, c: ClassDef)
    ensures c in Stuck(cs, local, placed) <==> c in cs && !Ready(c, local, placed)
  {
    if cs != [] { StuckSound(cs[1..], local, placed, c); }
  }

  /** The position of each name in an order. */
  function Position(ordered: seq<ClassDef>): (m: map<string, nat>)
    ensures m.Keys == Names(ordered)
    ensures forall name :: name in m ==> m[name] < |ordered|
  {
    if ordered == [] then map[]
    else
      var last := |ordered| - 1;
      assert forall c :: c in ordered <==> c in ordered[..last] || c == ordered[last];
      Position(ordered[..last])[ordered[last].name := last]
  }

  lemma {:induction false} PositionAt(ordered: seq<ClassDef>, k: nat)
    requires DistinctNames(ordered) && k < |ordered|
    ensures ordered[k].name in Position(ordered) && Position(ordered)[ordered[k].name] == k
  {
    if k < |ordered| - 1 {
      PositionAt(ordered[..|ordered| - 1], k);
      assert ordered[k].name != ordered[|ordered| - 1].name;
    }
  }

  lemma OrderRanks(ordered: seq<ClassDef>, local: set<string>, c: ClassDef, b: string)
    requires BasesFirst(ordered, local) && DistinctNames(ordered) && c in ordered && b in LocalBases(c, local)
    ensures b in Names(ordered) && Position(ordered)[b] < Position(ordered)[c.name]
  {
    var k :| 0 <= k < |ordered| && ordered[k] == c;
    assert b in Names(ordered[..k]);
    var base :| base in ordered[..k] && base.name == b;
    var j :| 0 <= j < k && ordered[j] == base;
    PositionAt(ordered, j);
    PositionAt(ordered, k);
  }

  lemma SameNames(a: seq<ClassDef>, b: seq<ClassDef>)
    requires multiset(a) == multiset(b)
    ensures (forall c :: c in a <==> c in b) && Names(a) == Names(b)
  {
    assert forall c :: c in a <==> c in multiset(a);
    assert forall c :: c in b <==> c in multiset(b);
  }

  /** With acyclic bases the fallback is never taken, names repeated or not. */
  lemma AcyclicNeedsNoFallback(classes: seq<ClassDef>, placed: set<string>)
    requires Acyclic(classes) && LeastClosed(classes, placed)
    ensures Stuck(classes, Names(classes), placed) == []
  {
    var rank :| Ranked(classes, rank);
    var stuck := Stuck(classes, Names(classes), placed);
    if stuck != [] {
      var c := stuck[0];
      StuckSound(classes, Names(classes), placed, c);
      var b :| b in LocalBases(c, Names(classes)) && b !in placed;
      var base :| base in classes && base.name == b;
      RankedIsPlaced(classes, rank, placed, base);
    }
  }

  // --- the same with names defined more than once ---

  /** Every ranked name has a definition whose bases all rank lower. */
  ghost predicate RankedSomehow(classes: seq<ClassDef>, rank: map<string, nat>) {
    forall name :: name in rank ==> exists c :: DefinedBelow(classes, rank, name, c)
  }

  ghost predicate DefinedBelow(classes: seq<ClassDef>, rank: map<string, nat>, name: string, c: ClassDef)
    requires name in rank
  {
    && c in classes && c.name == name
    && forall b :: b in LocalBases(c, Names(classes)) ==> b in rank && rank[b] < rank[name]
  }

  /** Such a rank reaches the bases of every class. */
  ghost predicate Orderable(classes: seq<ClassDef>) {
    exists rank :: RankedSomehow(classes, rank) && ReachesBases(classes, rank)
  }

  ghost predicate ReachesBases(classes: seq<ClassDef>, rank: map<string, nat>) {
    forall c, b :: c in classes && b in LocalBases(c, Names(classes)) ==> b in rank
  }

  lemma {:induction false} RankedSomehowIsPlaced(classes: seq<ClassDef>, rank: map<string, nat>, placed: set<string>,
                                                 name: string)
    requires RankedSomehow(classes, rank) && Closed(classes, placed) && name in rank
    ensures name in placed
    decreases rank[name]
  {
    var c :| DefinedBelow(classes, rank, name, c);
    forall b | b in LocalBases(c, Names(classes)) ensures b in placed {
      RankedSomehowIsPlaced(classes, rank, placed, b);
    }
  }

  lemma RankedClassIsReady(classes: seq<ClassDef>, rank: map<string, nat>, placed: set<string>, c: ClassDef)
    requires RankedSomehow(classes, rank) && ReachesBases(classes, rank) && Closed(classes, placed) && c in classes
    ensures Ready(c, Names(classes), placed)
  {
    forall b | b in LocalBases(c, Names(classes)) ensures b in placed {
      RankedSomehowIsPlaced(classes, rank, placed, b);
    }
  }

  lemma OrderableNeedsNoFallback(classes: seq<ClassDef>, placed: set<string>)
    requires Orderable(classes) && LeastClosed(classes, placed)
    ensures Stuck(classes, Names(classes), placed) == []
  {
    var rank :| RankedSomehow(classes, rank) && ReachesBases(classes, rank);
    var stuck := Stuck(classes, Names(classes), placed);
    if stuck != [] {
      StuckSound(classes, Names(classes), placed, stuck[0]);
      RankedClassIsReady(classes, rank, placed, stuck[0]);
    }
  }

  /** The position of the first definition of each name. */
  function FirstPosition(ordered: seq<ClassDef>): (m: map<string, nat>)
    ensures m.Keys == Names(ordered)
    ensures forall name :: name in m ==> m[name] < |ordered| && ordered[m[name]].name == name
  {
    if ordered == [] then map[]
    else
      var last := |ordered| - 1;
      var front := FirstPosition(ordered[..last]);
      assert forall c :: c in ordered <==> c in ordered[..last] || c == ordered[last];
      if ordered[last].name in front then front else front[ordered[last].name := last]
  }

  lemma {:induction false} FirstPositionOfPrefix(ordered: seq<ClassDef>, k: nat, name: string)
    requires k <= |ordered| && name in Names(ordered[..k])
    ensures name in FirstPosition(ordered) && FirstPosition(ordered)[name] < k
  {
    if k < |ordered| {
      var front := ordered[..|ordered| - 1];
      assert front[..k] == ordered[..k];
      FirstPositionOfPrefix(front, k, name);
    } else {
      assert ordered[..k] == ordered;
    }
  }

  /** An order that puts bases first ranks each name by its first definition. */
  lemma OrderRanksSomehow(classes: seq<ClassDef>, ordered: seq<ClassDef>)
    requires multiset(ordered) == multiset(classes) && BasesFirst(ordered, Names(classes))
    ensures Orderable(classes)
  {
    SameNames(ordered, classes);
    var rank := FirstPosition(ordered);
    forall name | name in rank ensures exists c :: DefinedBelow(classes, rank, name, c) {
      var c := ordered[rank[name]];
      assert c in ordered;
      forall b | b in LocalBases(c, Names(classes)) ensures b in rank && rank[b] < rank[name] {
        FirstPositionOfPrefix(ordered, rank[name], b);
      }
      assert DefinedBelow(classes, rank, name, c);
    }
    forall c, b | c in classes && b in LocalBases(c, Names(classes)) ensures b in rank {
      var k :| 0 <= k < |ordered| && ordered[k] == c;
      FirstPositionOfPrefix(ordered, k, b);
    }
    assert RankedSomehow(classes, rank) && ReachesBases(classes, rank);
  }

  /** What `SortClasses` promises of its output. */
  ghost predicate Sorted(classes: seq<ClassDef>, ordered: seq<ClassDef>, cut: nat) {
    && multiset(ordered) == multiset(classes) && cut <= |ordered|
    && BasesFirst(ordered[..cut], Names(classes)) && LeastClosed(classes, Names(ordered[..cut]))
    && ordered[cut..] == Stuck(classes, Names(classes), Names(ordered[..cut]))
  }

  /** The fallback is taken exactly when the classes cannot be ordered, names repeated or not. */
  lemma FallbackIff(classes: seq<ClassDef>, ordered: seq<ClassDef>, cut: nat)
    requires Sorted(classes, ordered, cut)
    ensures cut < |ordered| <==> !Orderable(classes)
  {
    if Orderable(classes) {
      OrderableNeedsNoFallback(classes, Names(ordered[..cut]));
    }
    if cut == |ordered| {
      assert ordered[..cut] == ordered;
      OrderRanksSomehow(classes, ordered);
    }
  }

  /** With distinct names that means: exactly when the bases are cyclic. */
  lemma FallbackIffCyclic(classes: seq<ClassDef>, ordered: seq<ClassDef>, cut: nat)
    requires DistinctNames(ordered) && Sorted(classes, ordered, cut)
    ensures cut < |ordered| <==> !Acyclic(classes)
  {
    if Acyclic(classes) {
      AcyclicNeedsNoFallback(classes, Names(ordered[..cut]));
    }
    if cut == |ordered| {
      assert ordered[..cut] == ordered;
      SameNames(ordered, classes);
      var rank := Position(ordered);
      forall c, b | c in classes && b in LocalBases(c, Names(classes)) ensures rank[b] < rank[c.name] {
        OrderRanks(ordered, Names(classes), c, b);
      }
      assert Ranked(classes, rank);
    }
  }

  /** A name defined twice can inherit from its own first definition: no fallback, no rank. */
  lemma RepeatedNameNeedsDistinctness()
    ensures var classes := [ClassDef("A", [], "first"), ClassDef("A", [Name("A")], "second")];
            !Acyclic(classes) && Stuck(classes, Names(classes), {"A"}) == [] && LeastClosed(classes, {"A"})
  {
    var first, second := ClassDef("A", [], "first"), ClassDef("A", [Name("A")], "second");
    var classes := [first, second];
    assert first in classes && second in classes && second.bases[0] == Name("A");
    assert "A" in Names(classes) && "A" in LocalBases(second, Names(classes));
    assert LocalBases(first, Names(classes)) == {};
    assert forall c :: c in classes ==> c.name == "A";
    assert LocalBases(second, Names(classes)) <= {"A"};
    forall rank ensures !Ranked(classes, rank) {
    }
    forall other | Closed(classes, other) ensures {"A"} <= other { assert Ready(first, Names(classes), other); }
    assert Ready(first, Names(classes), {"A"}) && Ready(second, Names(classes), {"A"});
    assert classes[1..] == [second] && [second][1..] == [];
    assert Stuck([second], Names(classes), {"A"}) == [];
  }
}
