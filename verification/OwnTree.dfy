/** Shutdown of a tree of objects that talk by commands only. Between an object and its
    owner commands keep their order in each direction; otherwise they are delivered in
    any order. */
module OwnTree {
  import opened Options
  import opened Own

  datatype Downward = Plug | Term

  /** An object with what is on its way from (`down`) and to (`up`) its owner, counted
      commands announced but not sent (`owed`) and sent (`posted`), the events it was
      asked to wait for, and how often it ran `process_term`. */
  datatype Node = Node(own: Object, down: seq<Downward>, up: seq<Upward>, owed: nat, posted: nat, events: nat, runs: nat)

  type Tree = seq<Node>

  /** `Root` creates an object without owner. `Announce` and `Post` are the two halves
      of sending a counted command: the count is raised first. */
  datatype Op =
    | Root
    | Launch(i: nat)
    | TerminateOp(i: nat)
    | Announce(i: nat)
    | Post(i: nat)
    | Register(i: nat, n: nat)
    | Occur(i: nat)
    | Receive(i: nat)
    | Hear(i: nat)
    | Counted(i: nat)

  /** Calls are made on live objects only; whether commands and events find a live
      object is for the proof to say. */
  predicate Enabled(w: Tree, op: Op) {
    match op
    case Root => true
    case Launch(i) => i < |w| && w[i].own.alive
    case TerminateOp(i) => i < |w| && w[i].own.alive
    case Announce(i) => i < |w| && w[i].own.alive
    case Post(i) => i < |w| && w[i].owed > 0
    case Register(i, _) => i < |w| && w[i].own.alive
    case Occur(i) => i < |w| && w[i].events > 0
    case Receive(i) => i < |w| && w[i].down != []
    case Hear(i) => i < |w| && w[i].up != [] && w[i].own.owner.Some? && w[i].own.owner.value < |w|
    case Counted(i) => i < |w| && w[i].posted > 0
  }

  /** Tells the objects in `s` to terminate. */
  function Ask(w: Tree, s: set<nat>): (r: Tree)
    ensures |r| == |w|
    ensures forall j :: 0 <= j < |w| ==> r[j] == if j in s then w[j].(down := w[j].down + [Term]) else w[j]
  {
    seq(|w|, j requires 0 <= j < |w| => if j in s then w[j].(down := w[j].down + [Term]) else w[j])
  }

  /** The tree after object `i` did `e`: None if an assertion failed, or if the object
      was dead. */
  function Apply(w: Tree, i: nat, e: Effect): Option<Tree>
    requires i < |w|
  {
    if e.Crash? || !w[i].own.alive then None
    else Some(Ask(w[i := w[i].(own := e.own, up := w[i].up + e.told,
                               runs := if e.own.terminating && !w[i].own.terminating then w[i].runs + 1 else w[i].runs)], e.terms))
  }

  const NEW_ROOT := Node(NEW, [], [], 0, 0, 0, 0)

  function NewChild(p: nat): Node {
    Node(NEW.(owner := Some(p), sent := 1), [Plug], [], 0, 0, 0, 0)
  }

  function LaunchStep(w: Tree, i: nat): Option<Tree>
    requires i < |w|
  {
    Apply(w + [NewChild(i)], i, LaunchChild(w[i].own, |w|))
  }

  function ReceiveStep(w: Tree, i: nat): Option<Tree>
    requires i < |w| && w[i].down != []
  {
    Apply(w[i := w[i].(down := w[i].down[1..])], i, if w[i].down[0].Plug? then ProcessSeqnum(w[i].own) else ProcessTerm(w[i].own))
  }

  function HearStep(w: Tree, i: nat, p: nat): Option<Tree>
    requires i < |w| && w[i].up != [] && p < |w|
  {
    Apply(w[i := w[i].(up := w[i].up[1..])], p,
          if w[i].up[0].TermReq? then ProcessTermReq(w[p].own, i) else UnregisterTermAck(w[p].own))
  }

  function Announced(b: Node): Node {
    b.(own := b.own.(sent := b.own.sent + 1), owed := b.owed + 1)
  }

  function Posted(b: Node): Node
    requires b.owed > 0
  {
    b.(owed := b.owed - 1, posted := b.posted + 1)
  }

  function Step(w: Tree, op: Op): Option<Tree>
    requires Enabled(w, op)
  {
    match op
    case Root => Some(w + [NEW_ROOT])
    case Launch(i) => LaunchStep(w, i)
    case TerminateOp(i) => Apply(w, i, Terminate(w[i].own))
    case Announce(i) => Some(w[i := Announced(w[i])])
    case Post(i) => Some(w[i := Posted(w[i])])
    case Register(i, n) => Apply(w[i := w[i].(events := w[i].events + n)], i, RegisterTermAcks(w[i].own, n))
    case Occur(i) => Apply(w[i := w[i].(events := w[i].events - 1)], i, UnregisterTermAck(w[i].own))
    case Receive(i) => ReceiveStep(w, i)
    case Hear(i) => HearStep(w, i, w[i].own.owner.value)
    case Counted(i) => Apply(w[i := w[i].(posted := w[i].posted - 1)], i, ProcessSeqnum(w[i].own))
  }

  // ---- The invariant ----

  /** Told to terminate, and the acknowledgement still to be heard. */
  predicate Awaited(n: Node) {
    Term in n.down || (n.own.alive && n.own.terminating) || TermAck in n.up
  }

  predicate IsChild(w: Tree, i: nat, p: nat) {
    i < |w| && w[i].own.owner == Some(p)
  }

  function AwaitedOf(w: Tree, p: nat): set<nat> {
    set i | 0 <= i < |w| && IsChild(w, i, p) && Awaited(w[i])
  }

  predicate DownOk(d: seq<Downward>) {
    d == [] || d == [Plug] || d == [Term] || d == [Plug, Term]
  }

  /** A live object has sent requests only; a dead one has acknowledged last. */
  predicate UpOk(n: Node) {
    && (forall k :: 0 <= k < |n.up| - 1 ==> n.up[k] == TermReq)
    && (n.up != [] ==> n.up[|n.up| - 1] == if n.own.alive then TermReq else TermAck)
  }

  function Undelivered(n: Node): nat {
    n.owed + n.posted + if n.down != [] && n.down[0] == Plug then 1 else 0
  }

  predicate Local(n: Node) {
    && DownOk(n.down) && UpOk(n)
    && n.own.sent == n.own.processed + Undelivered(n)
    && n.runs == (if n.own.terminating then 1 else 0)
    && (n.own.terminating ==> n.own.owned == {} && Term !in n.down)
    && (n.own.owner.None? ==> n.down == [] && n.up == [])
    && (!n.own.alive ==> n.own.terminating && n.down == [] && Undelivered(n) == 0 && n.events == 0 && n.own.termAcks == 0)
  }

  /** Neither told to terminate nor terminating. */
  predicate Free(n: Node) {
    n.own.alive && !n.own.terminating && Term !in n.down
  }

  /** Child `i` against its owner: the owner lives on while it can hear of the child,
      and remembers a child exactly until it tells it to terminate. */
  predicate Family(w: Tree, i: nat)
    requires i < |w|
  {
    w[i].own.owner.Some? ==>
      var p := w[i].own.owner.value;
      && p < i
      && (w[i].own.alive || w[i].up != [] ==> w[p].own.alive)
      && (i in w[p].own.owned <==> Free(w[i]))
  }

  ghost predicate OwnsChildren(w: Tree, i: nat)
    requires i < |w|
  {
    forall c :: c in w[i].own.owned ==> IsChild(w, c, i)
  }

  predicate Counts(w: Tree, i: nat)
    requires i < |w|
  {
    w[i].own.termAcks == |AwaitedOf(w, i)| + w[i].events
  }

  /** Nothing is left to wait for, so the object should be gone. */
  predicate Over(o: Object) {
    o.terminating && o.processed == o.sent && o.termAcks == 0
  }

  ghost predicate InvBut(w: Tree, k: int) {
    forall i :: 0 <= i < |w| ==>
      Local(w[i]) && Family(w, i) && OwnsChildren(w, i) && Counts(w, i) && (i != k && w[i].own.alive ==> !Over(w[i].own))
  }

  ghost predicate Inv(w: Tree) {
    InvBut(w, -1)
  }

  // ---- Steps that touch one object only ----

  /** `b` in place of `a` is the same to its owner and its children. */
  predicate Alike(a: Node, b: Node) {
    && a.own.owner == b.own.owner && a.own.alive == b.own.alive && a.own.owned == b.own.owned
    && (a.own.owner.Some? ==> Free(a) == Free(b) && Awaited(a) == Awaited(b))
    && (b.up != [] ==> a.own.alive || a.up != [])
  }

  lemma SameAwaited(w: Tree, v: Tree, p: nat)
    requires |w| == |v|
    requires forall c :: 0 <= c < |w| ==> IsChild(w, c, p) == IsChild(v, c, p) && (IsChild(w, c, p) ==> Awaited(w[c]) == Awaited(v[c]))
    ensures AwaitedOf(w, p) == AwaitedOf(v, p)
  {
  }

  lemma Touch(w: Tree, i: nat, n: Node, k: int)
    requires InvBut(w, k) && i < |w| && Alike(w[i], n) && Local(n)
    requires n.own.termAcks - n.events == w[i].own.termAcks - w[i].events
    requires i == k || !n.own.alive || !Over(n.own)
    ensures InvBut(w[i := n], k)
  {
    hide Local, Over, Awaited, Free;
    var v := w[i := n];
    forall j | 0 <= j < |v| ensures Family(v, j) && OwnsChildren(v, j) && Counts(v, j) {
      TouchFamily(w, i, n, j);
      SameAwaited(w, v, j);
    }
  }

  lemma TouchFamily(w: Tree, i: nat, n: Node, j: nat)
    requires i < |w| && j < |w| && Alike(w[i], n) && Family(w, j) && OwnsChildren(w, j)
    ensures Family(w[i := n], j) && OwnsChildren(w[i := n], j)
  {
  }

  lemma Weaken(w: Tree, k: int)
    requires Inv(w)
    ensures InvBut(w, k)
  {
  }

  // ---- Death ----

  /** An object waits for nothing any more only if all its children are gone and have
      been heard. */
  lemma ChildrenGone(w: Tree, p: nat, i: nat)
    requires p < |w| && IsChild(w, i, p) && Local(w[p]) && Local(w[i]) && Family(w, i) && Counts(w, p)
    requires w[p].own.terminating && w[p].own.termAcks == 0
    ensures !w[i].own.alive && w[i].up == []
  {
    assert i !in AwaitedOf(w, p);
  }

  function Dead(n: Node): Node {
    n.(own := n.own.(alive := false), up := n.up + if n.own.owner.Some? then [TermAck] else [])
  }

  lemma DeadLocal(w: Tree, k: nat)
    requires k < |w| && Local(w[k]) && Counts(w, k) && w[k].own.alive && Over(w[k].own)
    ensures Local(Dead(w[k])) && w[k].own.owned == {} && w[k].events == 0
    ensures w[k].own.owner.Some? ==> !Free(w[k]) && Awaited(w[k]) && Awaited(Dead(w[k]))
  {
    var n := Dead(w[k]);
    if w[k].own.owner.Some? { assert n.up[|n.up| - 1] == TermAck; }
  }

  lemma DeathKeeps(w: Tree, k: nat)
    requires InvBut(w, k) && k < |w| && w[k].own.alive && Over(w[k].own)
    ensures Inv(w[k := Dead(w[k])])
  {
    var v := w[k := Dead(w[k])];
    DeadLocal(w, k);
    hide Local, Awaited, Free;
    forall j | 0 <= j < |v| ensures Family(v, j) && OwnsChildren(v, j) && Counts(v, j) {
      if IsChild(w, j, k) { DeadChild(w, k, j); }
      SameAwaited(w, v, j);
    }
  }

  lemma DeadChild(w: Tree, p: nat, i: nat)
    requires InvBut(w, p) && p < |w| && IsChild(w, i, p) && Over(w[p].own)
    ensures !w[i].own.alive && w[i].up == []
  {
    ChildrenGone(w, p, i);
  }

  /** `check_term_acks` never fails its assertion, and does what is due. */
  lemma Settle(w: Tree, k: nat)
    requires InvBut(w, k) && k < |w| && w[k].own.alive
    ensures var r := Apply(w, k, CheckTermAcks(w[k].own)); r.Some? && Inv(r.value)
  {
    if Over(w[k].own) {
      DeathKeeps(w, k);
      DeadLocal(w, k);
      assert Ask(w[k := Dead(w[k])], {}) == w[k := Dead(w[k])];
    } else {
      assert w[k].up + [] == w[k].up;
      assert Ask(w[k := w[k]], {}) == w;
    }
  }

  // ---- Telling children to terminate ----

  /** Object `p` gives up the children in `s` and tells them to terminate. */
  function TellAll(w: Tree, p: nat, s: set<nat>): Tree
    requires p < |w|
  {
    Ask(w[p := w[p].(own := w[p].own.(owned := w[p].own.owned - s, termAcks := w[p].own.termAcks + |s|))], s)
  }

  lemma TellChild(w: Tree, p: nat, i: nat)
    requires p < |w| && i < |w| && Local(w[i]) && Family(w, i) && OwnsChildren(w, p) && i in w[p].own.owned
    ensures i != p && IsChild(w, i, p) && Free(w[i]) && !Awaited(w[i])
    ensures var n := w[i].(down := w[i].down + [Term]); Local(n) && !Free(n) && Awaited(n)
  {
    var n := w[i].(down := w[i].down + [Term]);
    assert n.down[|n.down| - 1] == Term;
  }

  lemma TellNode(w: Tree, p: nat, s: set<nat>, j: nat)
    requires p < |w| && j < |w| && p !in s
    ensures var v := TellAll(w, p, s);
      && |v| == |w| && v[j].own.owner == w[j].own.owner && v[j].own.alive == w[j].own.alive && v[j].up == w[j].up
      && v[j].own.owned == (if j == p then w[p].own.owned - s else w[j].own.owned)
      && Free(v[j]) == (Free(w[j]) && j !in s) && Awaited(v[j]) == (Awaited(w[j]) || j in s)
  {
    var v := TellAll(w, p, s);
    if j in s { assert v[j].down[|v[j].down| - 1] == Term; }
  }

  lemma TellFamily(w: Tree, p: nat, s: set<nat>, j: nat)
    requires p < |w| && j < |w| && s <= w[p].own.owned && p !in s
    requires Local(w[j]) && Family(w, j) && OwnsChildren(w, j) && OwnsChildren(w, p)
    ensures var v := TellAll(w, p, s); Family(v, j) && OwnsChildren(v, j) && (Local(v[j]) || j == p)
  {
    if j in s { TellChild(w, p, j); }
    hide Local, Free, Awaited, TellAll;
    var v := TellAll(w, p, s);
    TellNode(w, p, s, j);
    TellOthers(w, p, s, j);
    forall c | 0 <= c < |w| ensures IsChild(v, c, j) == IsChild(w, c, j) { TellNode(w, p, s, c); }
    if w[j].own.owner.Some? { TellNode(w, p, s, w[j].own.owner.value); }
  }

  lemma TellOthers(w: Tree, p: nat, s: set<nat>, j: nat)
    requires p < |w| && j < |w| && p !in s
    ensures j != p && j !in s ==> TellAll(w, p, s)[j] == w[j]
    ensures j != p && j in s ==> TellAll(w, p, s)[j] == w[j].(down := w[j].down + [Term])
  {
  }

  lemma TellSelf(w: Tree, p: nat, s: set<nat>)
    requires p < |w| && p !in s
    ensures var v := TellAll(w, p, s);
      |v| == |w| && v[p] == w[p].(own := w[p].own.(owned := w[p].own.owned - s, termAcks := w[p].own.termAcks + |s|))
  {
  }

  lemma TellAwaited(w: Tree, p: nat, s: set<nat>, j: nat)
    requires p < |w| && j < |w| && p !in s
    requires forall c :: c in s ==> c < |w| && IsChild(w, c, p) && !Awaited(w[c])
    ensures var v := TellAll(w, p, s); |AwaitedOf(v, j)| == |AwaitedOf(w, j)| + (if j == p then |s| else 0)
  {
    hide Free, Local, TellAll, Awaited;
    var v := TellAll(w, p, s);
    TellNode(w, p, s, p);
    forall c | 0 <= c < |w| ensures IsChild(v, c, j) == IsChild(w, c, j) && Awaited(v[c]) == (Awaited(w[c]) || c in s) {
      TellNode(w, p, s, c);
    }
    if j == p {
      assert AwaitedOf(v, p) == AwaitedOf(w, p) + s;
      assert AwaitedOf(w, p) !! s;
    } else {
      SameAwaited(w, v, j);
    }
  }

  lemma OwnedFree(w: Tree, p: nat, k: int)
    requires InvBut(w, k) && p < |w|
    ensures p !in w[p].own.owned
    ensures forall c :: c in w[p].own.owned ==> c < |w| && IsChild(w, c, p) && !Awaited(w[c])
  {
    assert Family(w, p) && OwnsChildren(w, p);
    forall c | c in w[p].own.owned ensures c < |w| && IsChild(w, c, p) && !Awaited(w[c]) {
      assert IsChild(w, c, p) && Family(w, c) && Local(w[c]);
      TellChild(w, p, c);
    }
  }

  lemma TellerLocal(w: Tree, p: nat, s: set<nat>)
    requires p < |w| && p !in s && Local(w[p]) && !w[p].own.terminating && w[p].own.alive
    ensures var n := TellAll(w, p, s)[p]; Local(n) && !Over(n.own)
  {
    TellSelf(w, p, s);
  }

  lemma TellKeeps(w: Tree, p: nat, s: set<nat>)
    requires Inv(w) && p < |w| && s <= w[p].own.owned && !w[p].own.terminating
    ensures Inv(TellAll(w, p, s))
  {
    assert w[p].own.alive by { assert Local(w[p]); }
    hide Local, Free, Awaited, Family, OwnsChildren, AwaitedOf;
    OwnedFree(w, p, -1);
    TellerLocal(w, p, s);
    TellSelf(w, p, s);
    var v := TellAll(w, p, s);
    forall j | 0 <= j < |v| ensures Local(v[j]) && Family(v, j) && OwnsChildren(v, j) && Counts(v, j) && (v[j].own.alive ==> !Over(v[j].own)) {
      TellFamily(w, p, s, j);
      TellAwaited(w, p, s, j);
    }
  }

  // ---- New objects ----

  /** A new object is awaited by its owner if it was told to terminate at once. */
  lemma NewAwaited(w: Tree, n: Node, j: nat)
    requires j <= |w| && n.own.owner != Some(|w|) && (forall c :: 0 <= c < |w| ==> Family(w, c))
    ensures AwaitedOf(w + [n], j) == AwaitedOf(w, j) + (if n.own.owner == Some(j) && Awaited(n) then {|w|} else {})
    ensures j == |w| ==> AwaitedOf(w + [n], j) == {}
  {
    hide Awaited, Free;
    assert forall c :: 0 <= c < |w| ==> (w + [n])[c] == w[c] && IsChild(w + [n], c, j) == IsChild(w, c, j);
    if j == |w| {
      forall c | 0 <= c < |w| ensures !IsChild(w, c, j) { assert Family(w, c); }
    }
  }

  lemma Families(w: Tree, k: int)
    requires InvBut(w, k)
    ensures forall c :: 0 <= c < |w| ==> Family(w, c)
  {
  }

  lemma NewRootLocal()
    ensures Local(NEW_ROOT) && !Over(NEW_ROOT.own)
  {
  }

  lemma RootFamily(w: Tree, j: nat)
    requires j <= |w| && (j < |w| ==> Family(w, j) && OwnsChildren(w, j))
    ensures var v := w + [NEW_ROOT]; Family(v, j) && OwnsChildren(v, j)
  {
  }

  lemma RootKeeps(w: Tree)
    requires Inv(w)
    ensures Inv(w + [NEW_ROOT])
  {
    hide Local, Awaited, Free, Over, Family, OwnsChildren, AwaitedOf;
    var v := w + [NEW_ROOT];
    NewRootLocal();
    Families(w, -1);
    forall j | 0 <= j < |v| ensures Family(v, j) && OwnsChildren(v, j) && Counts(v, j) {
      NewAwaited(w, NEW_ROOT, j);
      RootFamily(w, j);
    }
  }

  function Launcher(n: Node, c: nat): Node {
    n.(own := LaunchChild(n.own, c).own)
  }

  function LaunchedChild(p: nat, asked: bool): Node {
    NewChild(p).(down := if asked then [Plug, Term] else [Plug])
  }

  /** The tree after `LaunchStep`. */
  function Launched(w: Tree, i: nat): Tree
    requires i < |w|
  {
    w[i := Launcher(w[i], |w|)] + [LaunchedChild(i, w[i].own.terminating)]
  }

  lemma LaunchShape(w: Tree, i: nat)
    requires i < |w| && w[i].own.alive
    ensures LaunchStep(w, i) == Some(Launched(w, i))
  {
    var u := w + [NewChild(i)];
    var e := LaunchChild(w[i].own, |w|);
    assert u[i] == w[i];
    var m := Launcher(w[i], |w|);
    assert m == w[i].(own := e.own, up := w[i].up + e.told) && e.own.terminating == w[i].own.terminating;
    assert NewChild(i).(down := [Plug] + [Term]) == LaunchedChild(i, true);
    hide LaunchChild, Launcher, LaunchedChild, NewChild;
    LaunchAsks(w[i].own, |w|);
    AskNew(w, i, m, NewChild(i), e.terms);
  }

  lemma LaunchAsks(o: Object, c: nat)
    ensures var e := LaunchChild(o, c); e.Done? && e.told == [] && e.terms == if o.terminating then {c} else {}
  {
  }

  lemma AskNew(w: Tree, i: nat, m: Node, n: Node, s: set<nat>)
    requires i < |w| && (s == {} || s == {|w|})
    ensures Ask((w + [n])[i := m], s) == w[i := m] + [if s == {} then n else n.(down := n.down + [Term])]
  {
  }

  lemma ChildLocal(p: nat, asked: bool)
    ensures var n := LaunchedChild(p, asked);
      Local(n) && !Over(n.own) && Free(n) == !asked && Awaited(n) == asked
  {
    var n := LaunchedChild(p, asked);
    assert asked ==> n.down[1] == Term;
    assert n.up == [];
  }

  lemma LauncherLocal(a: Node, c: nat)
    requires Local(a) && a.own.alive && !Over(a.own)
    ensures var m := Launcher(a, c);
      && Local(m) && !Over(m.own) && Free(m) == Free(a) && Awaited(m) == Awaited(a)
      && m.own.owner == a.own.owner && m.own.alive && m.own.terminating == a.own.terminating && m.up == a.up && m.events == a.events
      && m.own.owned == a.own.owned + (if a.own.terminating then {} else {c}) && (a.own.terminating ==> a.own.owned == {})
      && m.own.termAcks == a.own.termAcks + (if a.own.terminating then 1 else 0)
  {
  }

  lemma LaunchFamily(w: Tree, i: nat, j: nat)
    requires i < |w| && w[i].own.alive && Local(w[i]) && !Over(w[i].own) && j <= |w|
    requires j < |w| ==> Family(w, j) && OwnsChildren(w, j)
    ensures Family(Launched(w, i), j) && OwnsChildren(Launched(w, i), j)
  {
    LauncherLocal(w[i], |w|);
    ChildLocal(i, w[i].own.terminating);
    ChildFields(i, w[i].own.terminating);
    hide Launcher, LaunchedChild, Local, Over, Free, Awaited;
  }

  lemma ChildFields(p: nat, asked: bool)
    ensures var n := LaunchedChild(p, asked);
      n.own.owner == Some(p) && n.own.alive && !n.own.terminating && n.own.owned == {} && n.own.termAcks == n.events == 0
  {
  }

  lemma LaunchCounts(w: Tree, i: nat, j: nat)
    requires i < |w| && j <= |w| && (j < |w| ==> Counts(w, j)) && (forall c :: 0 <= c < |w| ==> Family(w, c))
    requires Local(w[i]) && w[i].own.alive && !Over(w[i].own)
    ensures Counts(Launched(w, i), j)
  {
    LauncherLocal(w[i], |w|);
    ChildLocal(i, w[i].own.terminating);
    ChildFields(i, w[i].own.terminating);
    hide Launcher, LaunchedChild, Local, Over, Free, Awaited, Family;
    var n := LaunchedChild(i, w[i].own.terminating);
    NewAwaited(w, n, j);
    SameAwaited(w + [n], Launched(w, i), j);
  }

  lemma LaunchKeeps(w: Tree, i: nat)
    requires Inv(w) && i < |w| && w[i].own.alive
    ensures Inv(Launched(w, i))
  {
    hide Local, Over, Free, Awaited, Family, OwnsChildren, Counts, Launcher, LaunchedChild;
    LauncherLocal(w[i], |w|);
    ChildLocal(i, w[i].own.terminating);
    Families(w, -1);
    var v := Launched(w, i);
    forall j | 0 <= j < |v| ensures Family(v, j) && OwnsChildren(v, j) && Counts(v, j) {
      LaunchFamily(w, i, j);
      LaunchCounts(w, i, j);
    }
  }

  // ---- Acknowledgements ----

  function Heard(n: Node): Node
    requires n.up != []
  {
    n.(up := n.up[1..])
  }

  function Fewer(n: Node): Node
    requires n.own.termAcks > 0
  {
    n.(own := n.own.(termAcks := n.own.termAcks - 1))
  }

  /** An acknowledgement finds the owner alive and waiting for it. */
  lemma AckExpected(w: Tree, i: nat, k: int)
    requires InvBut(w, k) && i < |w| && w[i].up != [] && w[i].up[0] == TermAck && w[i].own.owner.Some?
    ensures var p := w[i].own.owner.value; p < i && w[p].own.alive && w[p].own.termAcks > 0 && i in AwaitedOf(w, p)
    ensures w[i].up == [TermAck] && !w[i].own.alive
  {
    var p := w[i].own.owner.value;
    assert Local(w[i]) && Family(w, i) && Counts(w, p);
    assert i in AwaitedOf(w, p);
  }

  lemma HeardLocal(a: Node)
    requires Local(a) && a.up == [TermAck]
    ensures var n := Heard(a); Local(n) && n.up == [] && !Awaited(n) && !Free(n)
  {
  }

  lemma FewerLocal(b: Node)
    requires Local(b) && b.own.alive && b.own.termAcks > 0
    ensures var m := Fewer(b); Local(m) && Awaited(m) == Awaited(b) && Free(m) == Free(b)
  {
  }

  lemma HearAckKeeps(w: Tree, i: nat, p: nat)
    requires Inv(w) && i < |w| && w[i].up != [] && w[i].up[0] == TermAck && w[i].own.owner == Some(p)
    ensures p < i && w[p].own.alive && w[p].own.termAcks > 0 && InvBut(w[i := Heard(w[i])][p := Fewer(w[p])], p)
  {
    hide Local, Over, Free, Awaited, Family, OwnsChildren, Counts;
    AckExpected(w, i, -1);
    HeardLocal(w[i]);
    FewerLocal(w[p]);
    var v := w[i := Heard(w[i])][p := Fewer(w[p])];
    forall j | 0 <= j < |v| ensures Family(v, j) && OwnsChildren(v, j) && Counts(v, j) {
      AckFamily(w, i, p, j);
      AckCounts(w, i, p, j);
    }
  }

  lemma AckCounts(w: Tree, i: nat, p: nat, j: nat)
    requires i < |w| && j < |w| && p < i && w[i].up == [TermAck] && w[i].own.owner == Some(p)
    requires Local(w[i]) && Local(w[p]) && w[p].own.alive && i in AwaitedOf(w, p) && Counts(w, p) && Counts(w, j)
    ensures w[p].own.termAcks > 0 && Counts(w[i := Heard(w[i])][p := Fewer(w[p])], j)
  {
    HeardLocal(w[i]);
    FewerLocal(w[p]);
    hide Local, Over, Free, Awaited;
    var v := w[i := Heard(w[i])][p := Fewer(w[p])];
    if j == p {
      assert AwaitedOf(v, p) == AwaitedOf(w, p) - {i};
    } else {
      SameAwaited(w, v, j);
    }
  }

  lemma AckFamily(w: Tree, i: nat, p: nat, j: nat)
    requires i < |w| && j < |w| && p < i && w[i].up == [TermAck] && !w[i].own.alive && w[p].own.alive && w[p].own.termAcks > 0
    requires Family(w, j) && OwnsChildren(w, j)
    ensures var v := w[i := Heard(w[i])][p := Fewer(w[p])]; Family(v, j) && OwnsChildren(v, j)
  {
  }

  // ---- Every step ----

  lemma ReceivePlugKeeps(w: Tree, i: nat)
    requires Inv(w) && i < |w| && w[i].down != [] && w[i].down[0] == Plug
    ensures var r := ReceiveStep(w, i); r.Some? && Inv(r.value)
  {
    hide Local, Family, OwnsChildren, Counts, Alike, Over, Apply, CheckTermAcks;
    var n := w[i].(down := w[i].down[1..], own := w[i].own.(processed := w[i].own.processed + 1));
    PlugLocal(w[i]);
    Weaken(w, i);
    Touch(w, i, n, i);
    Settle(w[i := n], i);
    SplitCheck(w, i, w[i].(down := w[i].down[1..]), n);
  }

  lemma PlugLocal(a: Node)
    requires Local(a) && a.down != [] && a.down[0] == Plug
    ensures var n := a.(down := a.down[1..], own := a.own.(processed := a.own.processed + 1)); Local(n) && Alike(a, n) && a.own.alive
  {
    assert Term in a.down ==> a.down[1..] == [Term];
  }

  /** Doing something to an object and then checking it, in one step or in two. */
  lemma SplitCheck(w: Tree, i: nat, a: Node, n: Node)
    requires i < |w| && a.own.alive && n.own.alive && n == a.(own := n.own) && n.own.terminating == a.own.terminating
    ensures Apply(w[i := a], i, CheckTermAcks(n.own)) == Apply(w[i := n], i, CheckTermAcks(n.own))
  {
    var u, v, e := w[i := a], w[i := n], CheckTermAcks(n.own);
    if e.Done? {
      var m := a.(own := e.own, up := a.up + e.told);
      assert u[i := m] == v[i := m];
    }
  }

  /** The terminating object, its children told. */
  function Ending(a: Node): Node {
    a.(own := a.own.(termAcks := a.own.termAcks + |a.own.owned|, owned := {}, terminating := true), runs := a.runs + 1)
  }

  /** `process_term` is telling all children and then checking. */
  lemma SplitTerm(w: Tree, i: nat, a: Node)
    requires i < |w| && a == w[i].(down := a.down) && a.own.alive && !a.own.terminating && i !in a.own.owned
    ensures Apply(w[i := a], i, ProcessTerm(a.own))
         == Apply(TellAll(w, i, a.own.owned)[i := Ending(a)], i, CheckTermAcks(Ending(a).own))
  {
    var s, n := a.own.owned, Ending(a);
    var e := CheckTermAcks(n.own);
    CheckShape(n.own);
    TermShape(a);
    hide CheckTermAcks, ProcessTerm, TellAll, Ending, Ask;
    if e.Done? {
      var m := a.(own := e.own, up := a.up + e.told, runs := a.runs + 1);
      TellElsewhere(w, i, s, a, n, m);
      EndingFields(a);
    }
  }

  lemma TermShape(a: Node)
    requires !a.own.terminating
    ensures var f, e := ProcessTerm(a.own), CheckTermAcks(Ending(a).own);
      (f.Crash? <==> e.Crash?) && (e.Done? ==> f == Done(e.own, a.own.owned, e.told))
  {
  }

  lemma TellElsewhere(w: Tree, i: nat, s: set<nat>, a: Node, n: Node, m: Node)
    requires i < |w| && i !in s
    ensures Ask(w[i := a][i := m], s) == Ask(TellAll(w, i, s)[i := n][i := m], {})
  {
  }

  lemma CheckShape(o: Object)
    ensures var e := CheckTermAcks(o); e.Done? ==> e.terms == {} && e.own.terminating == o.terminating
  {
  }

  lemma EndingLocal(a: Node, b: Node)
    requires Local(a) && a.own.alive && !a.own.terminating && (a.own.owner.Some? ==> Term in a.down)
    requires b == a.(down := []) && (a.down == [] || a.down == [Term])
    ensures Local(Ending(b))
    ensures var c := a.(own := a.own.(owned := a.own.owned - a.own.owned, termAcks := a.own.termAcks + |a.own.owned|));
      Alike(c, Ending(b)) && Ending(b).own.termAcks - b.events == c.own.termAcks - c.events
  {
  }

  lemma TermKeeps(w: Tree, i: nat, a: Node)
    requires Inv(w) && i < |w| && a == w[i].(down := []) && (w[i].down == [] || w[i].down == [Term])
    requires w[i].own.alive && !w[i].own.terminating && (w[i].own.owner.Some? ==> Term in w[i].down)
    ensures var r := Apply(w[i := a], i, ProcessTerm(a.own)); r.Some? && Inv(r.value)
  {
    hide Local, Free, Awaited, Alike, Counts, Family, OwnsChildren, Over, Ending, TellAll, Apply, ProcessTerm, CheckTermAcks;
    OwnedFree(w, i, -1);
    var u := TellAll(w, i, a.own.owned);
    TellSelf(w, i, a.own.owned);
    TellKeeps(w, i, a.own.owned);
    EndingLocal(w[i], a);
    Weaken(u, i);
    EndingFields(a);
    Touch(u, i, Ending(a), i);
    Settle(u[i := Ending(a)], i);
    SplitTerm(w, i, a);
  }

  lemma EndingFields(a: Node)
    ensures var n := Ending(a); n.own.terminating && n == a.(own := n.own, runs := a.runs + 1) && n.own.alive == a.own.alive
  {
  }

  lemma TermInDown(n: Node)
    requires Local(n) && n.down != []
    ensures n.own.alive && n.own.owner.Some? && (n.down[0] == Term ==> n.down == [Term] && !n.own.terminating)
  {
  }

  lemma ReceiveKeeps(w: Tree, i: nat)
    requires Inv(w) && i < |w| && w[i].down != []
    ensures var r := ReceiveStep(w, i); r.Some? && Inv(r.value)
  {
    if w[i].down[0] == Plug {
      ReceivePlugKeeps(w, i);
    } else {
      TermInDown(w[i]);
      hide Local, Counts, Family, OwnsChildren, ProcessTerm, ProcessSeqnum, Apply;
      TermKeeps(w, i, w[i].(down := []));
      assert w[i].down[1..] == [];
    }
  }

  lemma CountedLocal(b: Node)
    requires Local(b) && b.posted > 0
    ensures var n := b.(posted := b.posted - 1, own := b.own.(processed := b.own.processed + 1)); Local(n) && Alike(b, n) && b.own.alive
  {
  }

  lemma CountedKeeps(w: Tree, i: nat)
    requires Inv(w) && Enabled(w, Counted(i))
    ensures var r := Step(w, Counted(i)); r.Some? && Inv(r.value)
  {
    hide Local, Family, OwnsChildren, Counts, Alike, Over, Apply, CheckTermAcks;
    CountedLocal(w[i]);
    var a := w[i].(posted := w[i].posted - 1);
    var n := a.(own := a.own.(processed := a.own.processed + 1));
    Weaken(w, i);
    Touch(w, i, n, i);
    Settle(w[i := n], i);
    SplitCheck(w, i, a, n);
  }

  lemma OccurLocal(w: Tree, i: nat)
    requires i < |w| && Local(w[i]) && Counts(w, i) && w[i].events > 0
    ensures w[i].own.alive && w[i].own.termAcks > 0
    ensures var a := w[i].(events := w[i].events - 1); Local(Fewer(a)) && Alike(w[i], Fewer(a))
  {
  }

  lemma OccurKeeps(w: Tree, i: nat)
    requires Inv(w) && Enabled(w, Occur(i))
    ensures var r := Step(w, Occur(i)); r.Some? && Inv(r.value)
  {
    hide Local, Family, OwnsChildren, Counts, Alike, Over, Apply, CheckTermAcks;
    OccurLocal(w, i);
    var a := w[i].(events := w[i].events - 1);
    Weaken(w, i);
    Touch(w, i, Fewer(a), i);
    Settle(w[i := Fewer(a)], i);
    SplitCheck(w, i, a, Fewer(a));
  }

  lemma AnnouncedLocal(b: Node)
    requires Local(b) && b.own.alive
    ensures var n := Announced(b); Local(n) && Alike(b, n) && !Over(n.own)
  {
  }

  lemma PostedLocal(b: Node)
    requires Local(b) && b.owed > 0
    ensures var n := Posted(b); Local(n) && Alike(b, n) && n.own == b.own
  {
  }

  lemma AnnounceKeeps(w: Tree, i: nat)
    requires Inv(w) && i < |w| && w[i].own.alive
    ensures Inv(w[i := Announced(w[i])])
  {
    hide Local, Family, OwnsChildren, Counts, Alike, Over;
    AnnouncedLocal(w[i]);
    Touch(w, i, Announced(w[i]), -1);
  }

  lemma PostKeeps(w: Tree, i: nat)
    requires Inv(w) && i < |w| && w[i].owed > 0
    ensures Inv(w[i := Posted(w[i])])
  {
    hide Local, Family, OwnsChildren, Counts, Alike, Over;
    PostedLocal(w[i]);
    Touch(w, i, Posted(w[i]), -1);
  }

  lemma AskNobody(w: Tree)
    ensures Ask(w, {}) == w
  {
  }

  lemma RegisterLocal(b: Node, k: nat)
    requires Local(b) && b.own.alive && !Over(b.own)
    ensures var n := b.(events := b.events + k, own := b.own.(termAcks := b.own.termAcks + k)); Local(n) && Alike(b, n) && !Over(n.own)
  {
  }

  lemma RegisterKeeps(w: Tree, i: nat, k: nat)
    requires Inv(w) && Enabled(w, Register(i, k))
    ensures var r := Step(w, Register(i, k)); r.Some? && Inv(r.value)
  {
    hide Local, Family, OwnsChildren, Counts, Alike, Over, Ask;
    RegisterLocal(w[i], k);
    var a := w[i].(events := w[i].events + k);
    var n := a.(own := a.own.(termAcks := a.own.termAcks + k));
    Touch(w, i, n, -1);
    assert n.up + [] == n.up;
    assert w[i := a][i := n] == w[i := n];
    AskNobody(w[i := n]);
  }

  lemma RequestLocal(a: Node)
    requires Local(a) && a.own.alive && a.own.owner.Some?
    ensures var n := a.(up := a.up + [TermReq]); Local(n) && Alike(a, n)
  {
    var n := a.(up := a.up + [TermReq]);
    assert TermAck !in n.up && TermAck !in a.up;
  }

  lemma TerminateKeeps(w: Tree, i: nat)
    requires Inv(w) && Enabled(w, TerminateOp(i))
    ensures var r := Apply(w, i, Terminate(w[i].own)); r.Some? && Inv(r.value)
  {
    var o := w[i].own;
    assert Local(w[i]);
    if o.terminating {
      assert w[i].up + [] == w[i].up && w[i := w[i]] == w;
      AskNobody(w);
    } else if o.owner.None? {
      assert w[i].(down := []) == w[i] && w[i := w[i]] == w;
      TermKeeps(w, i, w[i]);
    } else {
      var n := w[i].(up := w[i].up + [TermReq]);
      RequestLocal(w[i]);
      Touch(w, i, n, -1);
      AskNobody(w[i := n]);
    }
  }

  lemma HeardRequestLocal(a: Node)
    requires Local(a) && a.up != [] && a.up[0] == TermReq
    ensures Local(Heard(a)) && Alike(a, Heard(a))
  {
    var n := Heard(a);
    assert forall k :: 0 <= k < |n.up| ==> n.up[k] == a.up[k + 1];
    assert a.up == [TermReq] + n.up;
  }

  lemma OwnerHears(w: Tree, i: nat, k: int)
    requires InvBut(w, k) && i < |w| && w[i].up != [] && w[i].own.owner.Some?
    ensures var p := w[i].own.owner.value; p < i && w[p].own.alive
  {
    assert Family(w, i);
  }

  lemma RequestShape(v: Tree, i: nat, p: nat)
    requires p < |v| && v[p].own.alive
    ensures Apply(v, p, ProcessTermReq(v[p].own, i))
         == Some(if v[p].own.terminating || i !in v[p].own.owned then v else TellAll(v, p, {i}))
  {
    hide Ask;
    AskNobody(v);
    assert v[p].up + [] == v[p].up && v[p := v[p]] == v;
    assert |{i}| == 1;
  }

  lemma HearRequestKeeps(w: Tree, i: nat, p: nat)
    requires Inv(w) && i < |w| && w[i].up != [] && w[i].up[0] == TermReq && w[i].own.owner == Some(p)
    ensures p < |w| && var r := HearStep(w, i, p); r.Some? && Inv(r.value)
  {
    hide Local, Family, OwnsChildren, Counts, Alike, Over, TellAll, Apply;
    OwnerHears(w, i, -1);
    HeardRequestLocal(w[i]);
    var v := w[i := Heard(w[i])];
    Touch(w, i, Heard(w[i]), -1);
    RequestShape(v, i, p);
    if !v[p].own.terminating && i in v[p].own.owned {
      TellKeeps(v, p, {i});
    }
  }

  lemma HearKeeps(w: Tree, i: nat)
    requires Inv(w) && Enabled(w, Hear(i))
    ensures var r := Step(w, Hear(i)); r.Some? && Inv(r.value)
  {
    var p := w[i].own.owner.value;
    if w[i].up[0] == TermReq {
      HearRequestKeeps(w, i, p);
    } else {
      HearAckKeeps(w, i, p);
      Settle(w[i := Heard(w[i])][p := Fewer(w[p])], p);
      SplitCheck(w[i := Heard(w[i])], p, w[p], Fewer(w[p]));
      assert w[i := Heard(w[i])][p := w[p]] == w[i := Heard(w[i])];
    }
  }

  /** No step fails an assertion or meets a dead object, and every step keeps the
      invariant. */
  lemma StepKeeps(w: Tree, op: Op)
    requires Inv(w) && Enabled(w, op)
    ensures var r := Step(w, op); r.Some? && Inv(r.value)
  {
    hide Inv, Apply, LaunchStep, ReceiveStep, HearStep;
    match op
    case Root => RootKeeps(w);
    case Launch(i) => LaunchShape(w, i); LaunchKeeps(w, i);
    case TerminateOp(i) => TerminateKeeps(w, i);
    case Announce(i) => AnnounceKeeps(w, i);
    case Post(i) => PostKeeps(w, i);
    case Register(i, n) => RegisterKeeps(w, i, n);
    case Occur(i) => OccurKeeps(w, i);
    case Receive(i) => ReceiveKeeps(w, i);
    case Hear(i) => HearKeeps(w, i);
    case Counted(i) => CountedKeeps(w, i);
  }
}
