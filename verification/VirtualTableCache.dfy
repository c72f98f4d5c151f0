/**
 The worker's cache of virtual tables.  A request is answered from the target file if it
 exists; otherwise a child process writes a temporary file and renames it onto the target.
 Children may die between any two steps.
 */
module VirtualTableCache {
  import opened Wrappers
  import opened Text

  // --- names ---

  function Prefix(hash: string): string {
    if |hash| <= 16 then hash else hash[..16]
  }

  function Target(id: int, hash: string): string {
    Wrapped(IntText(id) + "-" + Prefix(hash))
  }

  function Wrapped(middle: string): string {
    "fvt-" + middle + ".arrow"
  }

  function Temp(target: string): string {
    target + ".tmp"
  }

  lemma IntTextTail(n: int, k: nat)
    requires 0 < k < |IntText(n)|
    ensures IsDigit(IntText(n)[k])
  {
    var digits := NatText(if n < 0 then -n else n);
    assert IntText(n)[k] == digits[if n < 0 then k - 1 else k];
  }

  lemma IntPartLength(i: int, p: string, j: int, q: string)
    requires IntText(i) + "-" + p == IntText(j) + "-" + q
    ensures |IntText(i)| <= |IntText(j)|
  {
    if |IntText(j)| < |IntText(i)| {
      assert (IntText(j) + "-" + q)[|IntText(j)|] == '-';
      assert (IntText(i) + "-" + p)[|IntText(j)|] == IntText(i)[|IntText(j)|];
      IntTextTail(i, |IntText(j)|);
    }
  }

  lemma Halves(a: string, p: string, b: string, q: string)
    requires a + "-" + p == b + "-" + q && |a| == |b|
    ensures a == b && p == q
  {
    var left, right := a + "-" + p, b + "-" + q;
    assert left[..|a|] == a && right[..|b|] == b;
    assert left[|a| + 1..] == p && right[|b| + 1..] == q;
  }

  lemma Middle(middle: string)
    ensures |Wrapped(middle)| == |middle| + 10 && Wrapped(middle)[4..4 + |middle|] == middle
  {
  }

  /** A target names its table and its hash prefix. */
  lemma TargetInjective(i: int, h: string, j: int, k: string)
    requires Target(i, h) == Target(j, k)
    ensures i == j && Prefix(h) == Prefix(k)
  {
    var left, right := IntText(i) + "-" + Prefix(h), IntText(j) + "-" + Prefix(k);
    Middle(left);
    Middle(right);
    IntPartLength(i, Prefix(h), j, Prefix(k));
    IntPartLength(j, Prefix(k), i, Prefix(h));
    Halves(IntText(i), Prefix(h), IntText(j), Prefix(k));
    IntRoundTrip(i);
    IntRoundTrip(j);
  }

  /** Equal, or long enough and equal in the first sixteen characters. */
  predicate SameSixteen(h: string, k: string) {
    h == k || (16 <= |h| && 16 <= |k| && h[..16] == k[..16])
  }

  /** Two requests share a target exactly when they are for one table and their hashes agree
      in the first sixteen characters. */
  lemma TargetsCoincideIff(i: int, h: string, j: int, k: string)
    ensures Target(i, h) == Target(j, k) <==> i == j && SameSixteen(h, k)
  {
    assert Prefix(h) == Prefix(k) <==> SameSixteen(h, k) by {
      assert |h| == 16 ==> h[..16] == h;
      assert |k| == 16 ==> k[..16] == k;
    }
    if Target(i, h) == Target(j, k) { TargetInjective(i, h, j, k); }
  }

  /** A target as its text: the id in decimals and the start of the hash. */
  lemma TargetText(id: int, hash: string)
    requires 16 <= |hash|
    ensures Target(id, hash) == "fvt-" + IntText(id) + "-" + hash[..16] + ".arrow"
    ensures Temp(Target(id, hash)) == "fvt-" + IntText(id) + "-" + hash[..16] + ".arrow.tmp"
  {
    assert |hash| == 16 ==> hash[..16] == hash;
    assert ".arrow" + ".tmp" == ".arrow.tmp";
    var name := "fvt-" + IntText(id) + "-" + hash[..16];
    assert name == "fvt-" + (IntText(id) + "-" + hash[..16]);
    assert name + ".arrow" + ".tmp" == name + ".arrow.tmp";
  }

  /** Names of temporary files, as no target is. */
  predicate IsTemp(name: string) {
    |name| >= 4 && name[|name| - 4..] == ".tmp"
  }

  lemma TargetIsNoTemp(id: int, hash: string)
    ensures !IsTemp(Target(id, hash))
  {
    var target := Target(id, hash);
    assert target[|target| - 1] == 'w';
  }

  lemma TempInjective(a: string, b: string)
    ensures IsTemp(Temp(a)) && (Temp(a) == Temp(b) ==> a == b)
  {
    assert Temp(a)[|Temp(a)| - 4..] == ".tmp";
    assert Temp(a)[..|Temp(a)| - 4] == a && Temp(b)[..|Temp(b)| - 4] == b;
  }

  // --- the disk: names, and the files they name ---

  type Content = seq<int>

  datatype Disk = Disk(names: map<string, nat>, files: map<nat, Content>, next: nat)

  /** Opening for writing empties an existing file, which keeps its identity. */
  function Opened(d: Disk, name: string): (r: (Disk, nat)) {
    if name in d.names then (d.(files := d.files[d.names[name] := []]), d.names[name])
    else (Disk(d.names[name := d.next], d.files[d.next := []], d.next + 1), d.next)
  }

  /** Writing at a position past the end leaves a hole. */
  function WrittenAt(c: Content, pos: nat, batch: int): Content {
    if pos < |c| then c[pos := batch] else c + seq(pos - |c|, _ => 0) + [batch]
  }

  function Wrote(d: Disk, file: nat, pos: nat, batch: int): Disk {
    d.(files := d.files[file := WrittenAt(if file in d.files then d.files[file] else [], pos, batch)])
  }

  function Replaced(d: Disk, from: string, to: string): Disk {
    if from in d.names then d.(names := (d.names - {from})[to := d.names[from]]) else d
  }

  function Read(d: Disk, name: string): Option<Content> {
    if name in d.names && d.names[name] in d.files then Some(d.files[d.names[name]]) else None
  }

  ghost predicate DiskOk(d: Disk) {
    && (forall name :: name in d.names ==> d.names[name] in d.files && d.names[name] < d.next)
    && (forall a, b :: a in d.names && b in d.names && a != b ==> d.names[a] != d.names[b])
  }

  /** `d'` differs from `d` only at the names in `touched`. */
  ghost predicate OnlyAt(d: Disk, d': Disk, touched: set<string>) {
    forall name :: name !in touched ==>
      && (name in d'.names <==> name in d.names)
      && (name in d.names ==> d'.names[name] == d.names[name])
      && Read(d', name) == Read(d, name)
  }

  lemma OpenedDisk(d: Disk, name: string)
    requires DiskOk(d)
    ensures var (d', file) := Opened(d, name);
            && DiskOk(d') && OnlyAt(d, d', {name})
            && name in d'.names && d'.names[name] == file && Read(d', name) == Some([])
  {
    var (d', file) := Opened(d, name);
    forall other | other != name ensures Read(d', other) == Read(d, other) {
    }
  }

  lemma WroteDisk(d: Disk, name: string, pos: nat, batch: int)
    requires DiskOk(d) && name in d.names
    ensures var d' := Wrote(d, d.names[name], pos, batch);
            && DiskOk(d') && OnlyAt(d, d', {name}) && d'.names == d.names
            && Read(d', name) == Some(WrittenAt(Read(d, name).value, pos, batch))
  {
  }

  lemma ReplacedDisk(d: Disk, from: string, to: string)
    requires DiskOk(d) && from in d.names && from != to
    ensures var d' := Replaced(d, from, to);
            && DiskOk(d') && OnlyAt(d, d', {from, to})
            && from !in d'.names && to in d'.names && Read(d', to) == Read(d, from)
  {
  }

  // --- the system ---

  /** A child knows the path to produce and the plan, here the batches it computes. */
  datatype Child =
    | Started(target: string, plan: Content)
    | Writing(target: string, plan: Content, file: nat, pos: nat)

  /** The children that are alive. */
  datatype Sys = Sys(disk: Disk, children: map<nat, Child>)

  datatype Action =
    | Request(p: nat, id: int, hash: string)
    | Open(p: nat)
    | WriteBatch(p: nat)
    | Finish(p: nat)
    | Crash(p: nat)

  /** What the plan of a request computes: the recomputation a hit stands for. */
  type Results = (int, string) -> Content

  /** An action that is not possible changes nothing.  A plan that cannot be computed is a
      crash of its child. */
  function Apply(s: Sys, a: Action, results: Results): Sys {
    match a
    case Request(p, id, hash) =>
      if p in s.children || Target(id, hash) in s.disk.names then s
      else s.(children := s.children[p := Started(Target(id, hash), results(id, hash))])
    case Open(p) =>
      if p in s.children && s.children[p].Started? then Open1(s, p, s.children[p]) else s
    case WriteBatch(p) =>
      if CanWrite(s, p) then Write1(s, p, s.children[p]) else s
    case Finish(p) =>
      if CanFinish(s, p) then Finish1(s, p, s.children[p]) else s
    case Crash(p) => s.(children := s.children - {p})
  }

  predicate CanWrite(s: Sys, p: nat) {
    p in s.children && s.children[p].Writing? && s.children[p].pos < |s.children[p].plan|
  }

  predicate CanFinish(s: Sys, p: nat) {
    p in s.children && s.children[p].Writing? && s.children[p].pos == |s.children[p].plan|
  }

  function Open1(s: Sys, p: nat, c: Child): Sys {
    var (disk, file) := Opened(s.disk, Temp(c.target));
    Sys(disk, s.children[p := Writing(c.target, c.plan, file, 0)])
  }

  function Write1(s: Sys, p: nat, c: Child): Sys
    requires c.Writing? && c.pos < |c.plan|
  {
    Sys(Wrote(s.disk, c.file, c.pos, c.plan[c.pos]), s.children[p := c.(pos := c.pos + 1)])
  }

  function Finish1(s: Sys, p: nat, c: Child): Sys {
    Sys(Replaced(s.disk, Temp(c.target), c.target), s.children - {p})
  }

  function Exec(s: Sys, actions: seq<Action>, results: Results): Sys {
    if actions == [] then s
    else Apply(Exec(s, actions[..|actions| - 1], results), actions[|actions| - 1], results)
  }

  // --- one writer per target ---

  /** Sixteen characters of the hash determine the result. */
  ghost predicate PrefixDetermines(results: Results) {
    forall id, h, k :: SameSixteen(h, k) ==> results(id, h) == results(id, k)
  }

  ghost predicate Free(s: Sys, target: string) {
    forall q :: q in s.children ==> s.children[q].target != target
  }

  /** No request starts a child while another works on the same target. */
  ghost predicate OneWriter(s: Sys, actions: seq<Action>, results: Results) {
    actions != [] ==>
      var before, last := actions[..|actions| - 1], actions[|actions| - 1];
      && OneWriter(s, before, results)
      && (last.Request? ==> Free(Exec(s, before, results), Target(last.id, last.hash)))
  }

  /** Every target is absent or complete. */
  ghost predicate TargetsComplete(d: Disk, wanted: string -> Content) {
    forall name :: name in d.names && !IsTemp(name) ==> Read(d, name) == Some(wanted(name))
  }

  ghost predicate ChildOk(d: Disk, c: Child, wanted: string -> Content) {
    && !IsTemp(c.target) && c.plan == wanted(c.target)
    && (c.Writing? ==>
          && c.pos <= |c.plan|
          && Temp(c.target) in d.names && d.names[Temp(c.target)] == c.file
          && Read(d, Temp(c.target)) == Some(c.plan[..c.pos]))
  }

  ghost predicate Separate(s: Sys) {
    forall p, q :: p in s.children && q in s.children && p != q ==> s.children[p].target != s.children[q].target
  }

  ghost predicate Inv(s: Sys, wanted: string -> Content) {
    && DiskOk(s.disk)
    && TargetsComplete(s.disk, wanted)
    && Separate(s)
    && forall p :: p in s.children ==> ChildOk(s.disk, s.children[p], wanted)
  }

  /** A child is not disturbed by a step at the names of another target. */
  lemma ChildUndisturbed(d: Disk, d': Disk, touched: set<string>, c: Child, wanted: string -> Content)
    requires ChildOk(d, c, wanted) && OnlyAt(d, d', touched) && Temp(c.target) !in touched
    ensures ChildOk(d', c, wanted)
  {
  }

  lemma OthersStay(children: map<nat, Child>, children': map<nat, Child>, p: nat, q: nat)
    requires children' - {p} == children - {p} && q in children' && q != p
    ensures q in children && children'[q] == children[q]
  {
    assert q in children' - {p};
    assert (children' - {p})[q] == (children - {p})[q];
  }

  /** Child `p` took a step at its own names. */
  ghost predicate StepOf(s: Sys, s': Sys, p: nat, touched: set<string>) {
    && p in s.children && OnlyAt(s.disk, s'.disk, touched)
    && touched <= {Temp(s.children[p].target), s.children[p].target}
    && s'.children - {p} == s.children - {p}
    && (p in s'.children ==> s'.children[p].target == s.children[p].target)
  }

  lemma OtherChildOk(s: Sys, s': Sys, p: nat, q: nat, touched: set<string>, wanted: string -> Content)
    requires Inv(s, wanted) && StepOf(s, s', p, touched) && q in s'.children && q != p
    ensures ChildOk(s'.disk, s'.children[q], wanted)
  {
    OthersStay(s.children, s'.children, p, q);
    var c := s.children[q];
    assert c.target != s.children[p].target;
    TempInjective(c.target, s.children[p].target);
    ChildUndisturbed(s.disk, s'.disk, touched, c, wanted);
  }

  /** The other children keep what they have. */
  lemma StepAt(s: Sys, s': Sys, p: nat, touched: set<string>, wanted: string -> Content)
    requires Inv(s, wanted) && StepOf(s, s', p, touched)
    ensures Separate(s')
    ensures forall q :: q in s'.children && q != p ==> ChildOk(s'.disk, s'.children[q], wanted)
  {
    forall q | q in s'.children ensures q in s.children && s'.children[q].target == s.children[q].target {
      if q != p { OthersStay(s.children, s'.children, p, q); }
    }
    forall q | q in s'.children && q != p ensures ChildOk(s'.disk, s'.children[q], wanted) {
      OtherChildOk(s, s', p, q, touched, wanted);
    }
  }

  lemma OpenKeeps(s: Sys, p: nat, wanted: string -> Content)
    requires Inv(s, wanted) && p in s.children && s.children[p].Started?
    ensures Inv(Open1(s, p, s.children[p]), wanted)
  {
    var c, s' := s.children[p], Open1(s, p, s.children[p]);
    OpenedDisk(s.disk, Temp(c.target));
    TempInjective(c.target, c.target);
    StepAt(s, s', p, {Temp(c.target)}, wanted);
    assert c.plan[..0] == [];
  }

  lemma WriteKeeps(s: Sys, p: nat, wanted: string -> Content)
    requires Inv(s, wanted) && CanWrite(s, p)
    ensures Inv(Write1(s, p, s.children[p]), wanted)
  {
    var c, s' := s.children[p], Write1(s, p, s.children[p]);
    WroteDisk(s.disk, Temp(c.target), c.pos, c.plan[c.pos]);
    TempInjective(c.target, c.target);
    StepAt(s, s', p, {Temp(c.target)}, wanted);
    assert WrittenAt(c.plan[..c.pos], c.pos, c.plan[c.pos]) == c.plan[..c.pos + 1];
  }

  lemma FinishKeeps(s: Sys, p: nat, wanted: string -> Content)
    requires Inv(s, wanted) && CanFinish(s, p)
    ensures Inv(Finish1(s, p, s.children[p]), wanted)
  {
    var c, s' := s.children[p], Finish1(s, p, s.children[p]);
    TempInjective(c.target, c.target);
    ReplacedDisk(s.disk, Temp(c.target), c.target);
    assert c.plan[..c.pos] == c.plan;
    StepAt(s, s', p, {Temp(c.target), c.target}, wanted);
  }

  lemma RequestKeeps(s: Sys, p: nat, target: string, wanted: string -> Content)
    requires Inv(s, wanted) && p !in s.children && Free(s, target) && !IsTemp(target)
    ensures Inv(s.(children := s.children[p := Started(target, wanted(target))]), wanted)
  {
  }

  lemma StepKeeps(s: Sys, a: Action, results: Results, wanted: string -> Content)
    requires forall id, hash :: results(id, hash) == wanted(Target(id, hash))
    requires Inv(s, wanted) && (a.Request? ==> Free(s, Target(a.id, a.hash)))
    ensures Inv(Apply(s, a, results), wanted)
  {
    match a
    case Request(p, id, hash) =>
      TargetIsNoTemp(id, hash);
      if p !in s.children { RequestKeeps(s, p, Target(id, hash), wanted); }
    case Open(p) => if p in s.children && s.children[p].Started? { OpenKeeps(s, p, wanted); }
    case WriteBatch(p) =>
      if CanWrite(s, p) { WriteKeeps(s, p, wanted); }
    case Finish(p) =>
      if CanFinish(s, p) { FinishKeeps(s, p, wanted); }
    case Crash(p) =>
  }

  lemma {:induction false} RunKeeps(s: Sys, actions: seq<Action>, results: Results, wanted: string -> Content)
    requires forall id, hash :: results(id, hash) == wanted(Target(id, hash))
    requires Inv(s, wanted) && OneWriter(s, actions, results)
    ensures Inv(Exec(s, actions, results), wanted)
  {
    if actions != [] {
      var before := actions[..|actions| - 1];
      RunKeeps(s, before, results, wanted);
      StepKeeps(Exec(s, before, results), actions[|actions| - 1], results, wanted);
    }
  }

  ghost function Wanted(results: Results, target: string): Content {
    if exists id, hash :: target == Target(id, hash) then
      var id, hash :| target == Target(id, hash);
      results(id, hash)
    else []
  }

  lemma WantedIsResult(results: Results, id: int, hash: string)
    requires PrefixDetermines(results)
    ensures Wanted(results, Target(id, hash)) == results(id, hash)
  {
    var target := Target(id, hash);
    var j, k :| target == Target(j, k) && Wanted(results, target) == results(j, k);
    TargetsCoincideIff(id, hash, j, k);
  }

  function Start(): Sys {
    Sys(Disk(map[], map[], 0), map[])
  }

  /** Over any requests and any crashes, with one writer per target at a time, a target is
      absent or complete: a hit reads what recomputing the request would give. */
  lemma HitIsRecomputation(actions: seq<Action>, results: Results, id: int, hash: string)
    requires PrefixDetermines(results) && OneWriter(Start(), actions, results)
    ensures Read(Exec(Start(), actions, results).disk, Target(id, hash)) in {None, Some(results(id, hash))}
  {
    var wanted := (target: string) => Wanted(results, target);
    forall i, h ensures results(i, h) == wanted(Target(i, h)) {
      WantedIsResult(results, i, h);
    }
    RunKeeps(Start(), actions, results, wanted);
    TargetIsNoTemp(id, hash);
  }

  // --- one request, from start to end ---

  /** Child `p` has written `pos` batches; `others` are the children beside it. */
  ghost predicate Halfway(s: Sys, others: map<nat, Child>, p: nat, target: string, plan: Content, pos: nat,
      wanted: string -> Content) {
    && Inv(s, wanted) && p in s.children && s.children - {p} == others
    && s.children[p].Writing? && s.children[p].target == target && s.children[p].plan == plan
    && s.children[p].pos == pos && target !in s.disk.names
  }

  lemma ChildOpens(s: Sys, p: nat, target: string, wanted: string -> Content)
    requires Inv(s, wanted) && p !in s.children && Free(s, target) && !IsTemp(target) && target !in s.disk.names
    ensures var started := s.(children := s.children[p := Started(target, wanted(target))]);
            Halfway(Open1(started, p, started.children[p]), s.children, p, target, wanted(target), 0, wanted)
  {
    var started := s.(children := s.children[p := Started(target, wanted(target))]);
    RequestKeeps(s, p, target, wanted);
    OpenKeeps(started, p, wanted);
    OpenedDisk(s.disk, Temp(target));
    TempInjective(target, target);
    assert Open1(started, p, started.children[p]).children - {p} == s.children;
  }

  lemma ChildWrites(s: Sys, others: map<nat, Child>, p: nat, target: string, plan: Content, pos: nat,
      wanted: string -> Content)
    requires Halfway(s, others, p, target, plan, pos, wanted) && pos < |plan|
    ensures Halfway(Write1(s, p, s.children[p]), others, p, target, plan, pos + 1, wanted)
  {
    WriteKeeps(s, p, wanted);
    assert Write1(s, p, s.children[p]).children - {p} == s.children - {p};
  }

  lemma ChildRenames(s: Sys, others: map<nat, Child>, p: nat, target: string, plan: Content, wanted: string -> Content)
    requires Halfway(s, others, p, target, plan, |plan|, wanted)
    ensures var s' := Finish1(s, p, s.children[p]);
            Inv(s', wanted) && s'.children == others && Read(s'.disk, target) == Some(plan)
  {
    FinishKeeps(s, p, wanted);
    TempInjective(target, target);
    ReplacedDisk(s.disk, Temp(target), target);
  }

  class Worker {
    var sys: Sys

    constructor ()
      ensures sys == Start()
    {
      sys := Start();
    }

    /** The child `p` dies after `lifetime` steps of opening, writing a batch, renaming or
        replying.  An answer is what the target holds and what recomputing would give; a
        child that dies before replying leaves the target absent, or complete if it had
        renamed. */
    method Resolve(p: nat, id: int, hash: string, results: Results, lifetime: nat, ghost wanted: string -> Content)
      returns (r: Option<Content>)
      requires forall i, h :: results(i, h) == wanted(Target(i, h))
      requires Inv(sys, wanted) && p !in sys.children && Free(sys, Target(id, hash))
      modifies this
      ensures Inv(sys, wanted) && sys.children == old(sys.children)
      ensures r.Some? <==> Target(id, hash) in old(sys).disk.names || |results(id, hash)| + 2 < lifetime
      ensures r.Some? ==> r == Some(results(id, hash))
      ensures Target(id, hash) in sys.disk.names <==> r.Some? || |results(id, hash)| + 2 == lifetime
      ensures Target(id, hash) in sys.disk.names ==> Read(sys.disk, Target(id, hash)) == Some(results(id, hash))
    {
      var target := Target(id, hash);
      TargetIsNoTemp(id, hash);
      if target in sys.disk.names {
        return Read(sys.disk, target);
      }
      r := RunChild(p, target, results(id, hash), lifetime, wanted);
    }

    method RunChild(p: nat, target: string, plan: Content, lifetime: nat, ghost wanted: string -> Content)
      returns (r: Option<Content>)
      requires plan == wanted(target) && !IsTemp(target) && target !in sys.disk.names
      requires Inv(sys, wanted) && p !in sys.children && Free(sys, target)
      modifies this
      ensures Inv(sys, wanted) && sys.children == old(sys.children)
      ensures r == if |plan| + 2 < lifetime then Some(plan) else None
      ensures if |plan| + 2 <= lifetime then Read(sys.disk, target) == Some(plan) else target !in sys.disk.names
    {
      if lifetime == 0 {
        return None;
      }
      ChildOpens(sys, p, target, wanted);
      sys := sys.(children := sys.children[p := Started(target, plan)]);
      sys := Open1(sys, p, sys.children[p]);
      var pos := 0;
      while pos < |plan| && pos + 1 < lifetime
        invariant Halfway(sys, old(sys).children, p, target, plan, pos, wanted)
        invariant pos <= |plan| && pos < lifetime
      {
        ChildWrites(sys, old(sys).children, p, target, plan, pos, wanted);
        sys := Write1(sys, p, sys.children[p]);
        pos := pos + 1;
      }
      if pos + 1 == lifetime {
        sys := sys.(children := sys.children - {p});
        return None;
      }
      ChildRenames(sys, old(sys).children, p, target, plan, wanted);
      sys := Finish1(sys, p, sys.children[p]);
      r := if pos + 2 < lifetime then Some(plan) else None;
    }
  }

  lemma ExecCons(s: Sys, actions: seq<Action>, a: Action, results: Results)
    ensures Exec(s, actions + [a], results) == Apply(Exec(s, actions, results), a, results)
  {
    assert (actions + [a])[..|actions + [a]| - 1] == actions;
  }

  /** Two children of one target start, and the first opens the file. */
  function TwoStart(id: int, hash: string): seq<Action> {
    [Request(1, id, hash), Request(2, id, hash), Open(1)]
  }

  /** The first child writes `n` batches. */
  function Writes(n: nat): seq<Action> {
    if n == 0 then [] else Writes(n - 1) + [WriteBatch(1)]
  }

  /** The state in which the first child has written `n` batches. */
  function FirstWrote(target: string, plan: Content, n: nat): Sys
    requires n <= |plan|
  {
    Sys(Disk(map[Temp(target) := 0], map[0 := plan[..n]], 1),
        map[1 := Writing(target, plan, 0, n), 2 := Started(target, plan)])
  }

  lemma FirstOpens(results: Results, id: int, hash: string)
    ensures Exec(Start(), TwoStart(id, hash), results) == FirstWrote(Target(id, hash), results(id, hash), 0)
  {
    var target, plan := Target(id, hash), results(id, hash);
    var a1 := [Request(1, id, hash)];
    assert [] + a1 == a1;
    ExecCons(Start(), [], Request(1, id, hash), results);
    assert Exec(Start(), a1, results).children[1] == Started(target, plan);
    ExecCons(Start(), a1, Request(2, id, hash), results);
    var a2 := a1 + [Request(2, id, hash)];
    assert Exec(Start(), a2, results).children == map[1 := Started(target, plan), 2 := Started(target, plan)];
    ExecCons(Start(), a2, Open(1), results);
    assert a2 + [Open(1)] == TwoStart(id, hash);
    assert plan[..0] == [];
  }

  lemma FirstWritesOn(results: Results, target: string, plan: Content, n: nat)
    requires n < |plan|
    ensures Apply(FirstWrote(target, plan, n), WriteBatch(1), results) == FirstWrote(target, plan, n + 1)
  {
    var s := FirstWrote(target, plan, n);
    assert WrittenAt(plan[..n], n, plan[n]) == plan[..n + 1];
    assert s.disk.files[0 := plan[..n + 1]] == map[0 := plan[..n + 1]];
    assert s.children[1 := Writing(target, plan, 0, n + 1)] == FirstWrote(target, plan, n + 1).children;
  }

  function WroteMany(s: Sys, n: nat, results: Results): Sys {
    if n == 0 then s else Apply(WroteMany(s, n - 1, results), WriteBatch(1), results)
  }

  lemma OneMoreWrite(prefix: seq<Action>, n: nat)
    requires n > 0
    ensures prefix + Writes(n) == prefix + Writes(n - 1) + [WriteBatch(1)]
  {
    var writes := Writes(n - 1);
    assert prefix + (writes + [WriteBatch(1)]) == (prefix + writes) + [WriteBatch(1)];
  }

  lemma {:induction false} ExecWrites(s: Sys, prefix: seq<Action>, n: nat, results: Results)
    ensures Exec(s, prefix + Writes(n), results) == WroteMany(Exec(s, prefix, results), n, results)
  {
    if n == 0 {
      assert prefix + [] == prefix;
    } else {
      ExecWrites(s, prefix, n - 1, results);
      OneMoreWrite(prefix, n);
      ExecCons(s, prefix + Writes(n - 1), WriteBatch(1), results);
    }
  }

  lemma {:induction false} FirstWrites(results: Results, target: string, plan: Content, n: nat)
    requires n <= |plan|
    ensures WroteMany(FirstWrote(target, plan, 0), n, results) == FirstWrote(target, plan, n)
  {
    if n > 0 {
      FirstWrites(results, target, plan, n - 1);
      FirstWritesOn(results, target, plan, n - 1);
    }
  }

  /** The second child opens the same file, and the first renames it. */
  lemma SecondOpensFirstRenames(target: string, plan: Content)
    ensures var s := FirstWrote(target, plan, |plan|);
            var t := Open1(s, 2, s.children[2]);
            CanFinish(t, 1) && Read(Finish1(t, 1, t.children[1]).disk, target) == Some([])
  {
    var s := FirstWrote(target, plan, |plan|);
    var t := Open1(s, 2, s.children[2]);
    assert t.disk == Disk(map[Temp(target) := 0], map[0 := []], 1);
    assert t.children[1] == Writing(target, plan, 0, |plan|);
  }

  /** For every plan: the second child empties the file that the first, having written all
      of it, then renames.  The target exists, and is complete only if the plan is empty. */
  lemma SharedTempBreaksTarget(results: Results, id: int, hash: string)
    ensures var plan := results(id, hash);
            var actions := TwoStart(id, hash) + Writes(|plan|) + [Open(2)] + [Finish(1)];
            var read := Read(Exec(Start(), actions, results).disk, Target(id, hash));
            read == Some([]) && (read == Some(plan) <==> plan == [])
  {
    var plan := results(id, hash);
    var writes := TwoStart(id, hash) + Writes(|plan|);
    FirstOpens(results, id, hash);
    ExecWrites(Start(), TwoStart(id, hash), |plan|, results);
    FirstWrites(results, Target(id, hash), plan, |plan|);
    ExecCons(Start(), writes, Open(2), results);
    ExecCons(Start(), writes + [Open(2)], Finish(1), results);
    SecondOpensFirstRenames(Target(id, hash), plan);
  }
}
