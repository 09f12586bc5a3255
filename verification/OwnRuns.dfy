/** Shutdown of the ownership tree over whole runs: it is safe, and it comes to an end
    with nothing left. */
module OwnRuns {
  import opened Options
  import opened Own
  import opened OwnTree

  predicate RunEnabled(w: Tree, ops: seq<Op>)
    decreases |ops|
  {
    ops == [] || (Enabled(w, ops[0]) && (Step(w, ops[0]).Some? ==> RunEnabled(Step(w, ops[0]).value, ops[1..])))
  }

  /** None if some step failed an assertion or met a dead object. */
  function Run(w: Tree, ops: seq<Op>): Option<Tree>
    requires RunEnabled(w, ops)
    decreases |ops|
  {
    if ops == [] then Some(w)
    else
      match Step(w, ops[0])
      case Some(v) => Run(v, ops[1..])
      case None => None
  }

  lemma {:induction false} RunKeeps(w: Tree, ops: seq<Op>)
    requires Inv(w) && RunEnabled(w, ops)
    ensures var r := Run(w, ops); r.Some? && Inv(r.value)
    decreases |ops|
  {
    hide Inv, Step;
    if ops != [] {
      StepKeeps(w, ops[0]);
      RunKeeps(Step(w, ops[0]).value, ops[1..]);
    }
  }

  /** Object `i` has vanished without trace: nothing is on its way to it, it waits for
      nothing, and every object it launched is gone and was heard. */
  ghost predicate Gone(w: Tree, i: nat)
    requires i < |w|
  {
    && !w[i].own.alive && w[i].down == [] && w[i].owed == w[i].posted == w[i].events == 0
    && forall c: nat :: IsChild(w, c, i) ==> !w[c].own.alive && w[c].up == []
  }

  lemma DeadIsGone(w: Tree, i: nat)
    requires Inv(w) && i < |w| && !w[i].own.alive
    ensures Gone(w, i)
  {
    assert Local(w[i]) && Counts(w, i);
    forall c: nat | IsChild(w, c, i) ensures !w[c].own.alive && w[c].up == [] {
      assert Local(w[c]) && Family(w, c);
      ChildrenGone(w, i, c);
    }
  }

  /** In every run of any trees: no assertion fails and every command finds its
      destination alive; each object runs `process_term` at most once; an object is
      destroyed only when nothing more concerns it. */
  lemma ShutdownSafe(ops: seq<Op>)
    requires RunEnabled([], ops)
    ensures Run([], ops).Some?
    ensures var w := Run([], ops).value;
      forall i :: 0 <= i < |w| ==> w[i].runs <= 1 && (!w[i].own.alive ==> Gone(w, i))
  {
    assert Inv([]);
    RunKeeps([], ops);
    var w := Run([], ops).value;
    forall i | 0 <= i < |w| ensures w[i].runs <= 1 && (!w[i].own.alive ==> Gone(w, i)) {
      assert Local(w[i]);
      if !w[i].own.alive { DeadIsGone(w, i); }
    }
  }

  // ---- Nothing is left ----

  /** No command is on its way and no event is waited for. */
  ghost predicate Quiet(w: Tree) {
    forall i :: 0 <= i < |w| ==>
      w[i].down == [] && w[i].up == [] && w[i].owed == w[i].posted == w[i].events == 0
  }

  /** Object `i` lies in the part of the tree below `r`, or is `r`. */
  predicate Below(w: Tree, i: nat, r: nat)
    decreases i
  {
    i == r || (i < |w| && w[i].own.owner.Some? && w[i].own.owner.value < i && Below(w, w[i].own.owner.value, r))
  }

  /** A live terminating object with nothing on its way waits for a child in the same
      position, with a greater name. */
  lemma WaitsForChild(w: Tree, i: nat) returns (c: nat)
    requires Inv(w) && Quiet(w) && i < |w| && w[i].own.alive && w[i].own.terminating
    ensures i < c < |w| && w[c].own.alive && w[c].own.terminating
  {
    assert Local(w[i]) && Counts(w, i) && !Over(w[i].own);
    assert AwaitedOf(w, i) != {};
    c :| c in AwaitedOf(w, i);
    assert Family(w, c);
  }

  lemma {:induction false} NobodyTerminating(w: Tree, i: nat)
    requires Inv(w) && Quiet(w) && i < |w|
    ensures !(w[i].own.alive && w[i].own.terminating)
    decreases |w| - i
  {
    if w[i].own.alive && w[i].own.terminating {
      var c := WaitsForChild(w, i);
      NobodyTerminating(w, c);
    }
  }

  /** It has asked its owner for termination, or was told to terminate, or did so. */
  predicate Asked(n: Node) {
    !Free(n) || TermReq in n.up
  }

  /** Once an object has asked and no command is on its way, it and all below it are gone. */
  lemma {:induction false} NothingLeft(w: Tree, r: nat, i: nat)
    requires Inv(w) && Quiet(w) && r < |w| && Asked(w[r]) && i < |w| && Below(w, i, r)
    ensures !w[i].own.alive
    decreases i
  {
    NobodyTerminating(w, r);
    if i != r {
      var p := w[i].own.owner.value;
      NothingLeft(w, r, p);
      DeadIsGone(w, p);
      assert IsChild(w, i, p);
    }
  }

  // ---- Shutdown comes to an end ----

  /** Steps that only deliver what was promised before. */
  predicate Delivery(op: Op) {
    op.Post? || op.Occur? || op.Receive? || op.Hear? || op.Counted?
  }

  function Load(n: Node): nat {
    |n.own.owned| + |n.down| + |n.up| + 2 * n.owed + n.posted + n.events + if n.own.alive then 1 else 0
  }

  function Sum(w: Tree): nat {
    if w == [] then 0 else Sum(w[..|w| - 1]) + Load(w[|w| - 1])
  }

  lemma {:induction false} SumUpdate(w: Tree, i: nat, n: Node)
    requires i < |w|
    ensures Sum(w[i := n]) == Sum(w) - Load(w[i]) + Load(n)
  {
    hide Load;
    var v, k := w[i := n], |w| - 1;
    if i == k {
      assert v[..k] == w[..k];
    } else {
      SumUpdate(w[..k], i, n);
      assert v[..k] == w[..k][i := n];
    }
  }

  lemma {:induction false} SumAsk(w: Tree, s: set<nat>)
    requires forall c :: c in s ==> c < |w|
    ensures Sum(Ask(w, s)) == Sum(w) + |s|
  {
    if w == [] {
      assert s == {};
    } else {
      var k := |w| - 1;
      SumAsk(w[..k], s - {k});
      assert Ask(w, s)[..k] == Ask(w[..k], s - {k});
      if k !in s { assert s - {k} == s; }
    }
  }

  function Alive(o: Object): nat {
    if o.alive then 1 else 0
  }

  /** A handler gives away no more than it had. */
  predicate Thrifty(o: Object, e: Effect) {
    e.Done? ==> |e.own.owned| + |e.told| + |e.terms| + Alive(e.own) <= |o.owned| + Alive(o)
  }

  lemma HandlersThrifty(o: Object, c: nat)
    requires o.alive
    ensures Thrifty(o, ProcessSeqnum(o)) && Thrifty(o, ProcessTerm(o)) && Thrifty(o, ProcessTermReq(o, c)) && Thrifty(o, UnregisterTermAck(o))
    ensures ProcessTerm(o).Done? ==> ProcessTerm(o).terms <= o.owned
    ensures ProcessTermReq(o, c).terms <= o.owned
    ensures ProcessSeqnum(o).Done? ==> ProcessSeqnum(o).terms == {}
    ensures UnregisterTermAck(o).Done? ==> UnregisterTermAck(o).terms == {}
  {
    assert c in o.owned ==> |o.owned - {c}| == |o.owned| - 1;
  }

  lemma ApplyLoad(w: Tree, i: nat, e: Effect)
    requires i < |w| && Apply(w, i, e).Some? && Thrifty(w[i].own, e) && (forall c :: c in e.terms ==> c < |w|)
    ensures Sum(Apply(w, i, e).value) <= Sum(w)
  {
    var n := w[i].(own := e.own, up := w[i].up + e.told,
                   runs := if e.own.terminating && !w[i].own.terminating then w[i].runs + 1 else w[i].runs);
    SumUpdate(w, i, n);
    SumAsk(w[i := n], e.terms);
  }

  lemma OwnedExist(w: Tree, i: nat)
    requires Inv(w) && i < |w|
    ensures forall c :: c in w[i].own.owned ==> c < |w|
  {
    assert OwnsChildren(w, i);
  }

  lemma DeliveryLoad(w: Tree, op: Op)
    requires Inv(w) && Enabled(w, op) && Delivery(op) && Step(w, op).Some?
    ensures Sum(Step(w, op).value) < Sum(w)
  {
    hide Inv, Apply, Thrifty, ProcessSeqnum, ProcessTerm, ProcessTermReq, UnregisterTermAck;
    var i := op.i;
    OwnedExist(w, i);
    match op {
      case Post(_) => SumUpdate(w, i, Posted(w[i]));
      case Counted(_) =>
        var a := w[i].(posted := w[i].posted - 1);
        Consumed(w, i, a, i, ProcessSeqnum(w[i].own));
      case Occur(_) =>
        var a := w[i].(events := w[i].events - 1);
        Consumed(w, i, a, i, UnregisterTermAck(w[i].own));
      case Receive(_) =>
        var a := w[i].(down := w[i].down[1..]);
        Consumed(w, i, a, i, if w[i].down[0].Plug? then ProcessSeqnum(w[i].own) else ProcessTerm(w[i].own));
      case Hear(_) =>
        var p := w[i].own.owner.value;
        OwnedExist(w, p);
        var a := w[i].(up := w[i].up[1..]);
        Consumed(w, i, a, p, if w[i].up[0].TermReq? then ProcessTermReq(w[p].own, i) else UnregisterTermAck(w[p].own));
    }
  }

  /** Taking one command off and handling it lowers the load. */
  lemma Consumed(w: Tree, i: nat, a: Node, k: nat, e: Effect)
    requires i < |w| && a.own == w[i].own && Load(a) == Load(w[i]) - 1 && k < |w| && Apply(w[i := a], k, e).Some?
    requires var o := w[k].own; e == ProcessSeqnum(o) || e == ProcessTerm(o) || e == ProcessTermReq(o, i) || e == UnregisterTermAck(o)
    requires forall c :: c in w[k].own.owned ==> c < |w|
    ensures Sum(Apply(w[i := a], k, e).value) < Sum(w)
  {
    assert w[k].own.alive && e.Done?;
    HandlersThrifty(w[k].own, i);
    SumUpdate(w, i, a);
    hide ProcessSeqnum, ProcessTerm, ProcessTermReq, UnregisterTermAck, Load, Apply;
    assert w[i := a][k].own == w[k].own;
    ApplyLoad(w[i := a], k, e);
  }

  /** Deliveries alone cannot go on for ever. */
  lemma {:induction false} DeliveriesEnd(w: Tree, ops: seq<Op>)
    requires Inv(w) && RunEnabled(w, ops) && (forall op :: op in ops ==> Delivery(op))
    ensures |ops| <= Sum(w)
    decreases |ops|
  {
    hide Inv, Step, Sum, Delivery;
    if ops != [] {
      StepKeeps(w, ops[0]);
      DeliveryLoad(w, ops[0]);
      DeliveriesEnd(Step(w, ops[0]).value, ops[1..]);
    }
  }

  /** Where nothing can be delivered, nothing is on its way. */
  lemma QuietIff(w: Tree)
    requires Inv(w)
    ensures Quiet(w) <==> forall op :: Delivery(op) ==> !Enabled(w, op)
  {
    if forall op :: Delivery(op) ==> !Enabled(w, op) {
      forall i | 0 <= i < |w| ensures w[i].down == [] && w[i].up == [] && w[i].owed == w[i].posted == w[i].events == 0 {
        assert Local(w[i]) && Family(w, i);
        assert !Enabled(w, Receive(i)) && !Enabled(w, Hear(i)) && !Enabled(w, Post(i)) && !Enabled(w, Counted(i)) && !Enabled(w, Occur(i));
      }
    }
  }

  /** `v` has the objects of `w`, with the same owners; who has asked to terminate still has. */
  ghost predicate SameTree(w: Tree, v: Tree) {
    |v| == |w| && forall j :: 0 <= j < |w| ==> v[j].own.owner == w[j].own.owner && (Asked(w[j]) ==> Asked(v[j]))
  }

  predicate KeepsOwner(o: Object, e: Effect) {
    e.Done? ==> e.own.owner == o.owner && (o.terminating ==> e.own.terminating)
  }

  lemma HandlersKeepOwner(o: Object, c: nat)
    ensures KeepsOwner(o, ProcessSeqnum(o)) && KeepsOwner(o, ProcessTerm(o))
    ensures KeepsOwner(o, ProcessTermReq(o, c)) && KeepsOwner(o, UnregisterTermAck(o))
  {
  }

  lemma ApplySameTree(w: Tree, i: nat, e: Effect)
    requires i < |w| && Apply(w, i, e).Some? && KeepsOwner(w[i].own, e)
    ensures SameTree(w, Apply(w, i, e).value)
    ensures forall j :: 0 <= j < |w| && (j in e.terms || (j == i && e.own.terminating)) ==> Asked(Apply(w, i, e).value[j])
  {
  }

  /** Object `i` loses a command that says nothing about termination. */
  lemma ConsumedSameTree(w: Tree, i: nat, a: Node, k: nat, e: Effect)
    requires i < |w| && a.own == w[i].own && (Asked(w[i]) ==> Asked(a)) && k < |w| && Apply(w[i := a], k, e).Some?
    requires KeepsOwner(w[k].own, e)
    ensures SameTree(w, Apply(w[i := a], k, e).value)
  {
    hide Apply, KeepsOwner, Asked;
    var u := w[i := a];
    assert u[k].own == w[k].own;
    ApplySameTree(u, k, e);
    assert SameTree(w, u);
  }

  lemma ReceiveSameTree(w: Tree, i: nat)
    requires i < |w| && w[i].down != [] && ReceiveStep(w, i).Some?
    ensures SameTree(w, ReceiveStep(w, i).value)
  {
    HandlersKeepOwner(w[i].own, i);
    var a := w[i].(down := w[i].down[1..]);
    if w[i].down[0].Plug? {
      hide Apply, ProcessSeqnum, ProcessTerm;
      ConsumedSameTree(w, i, a, i, ProcessSeqnum(w[i].own));
    } else {
      var e := ProcessTerm(w[i].own);
      assert e.own.terminating;
      hide Apply, ProcessTerm;
      ApplySameTree(w[i := a], i, e);
    }
  }

  /** What ownership says of object `i` and its owner. */
  predicate Kin(w: Tree, i: nat)
    requires i < |w|
  {
    w[i].own.owner.Some? ==> var p := w[i].own.owner.value; p < i && (i in w[p].own.owned <==> Free(w[i]))
  }

  lemma HearSameTree(w: Tree, i: nat, p: nat)
    requires i < |w| && w[i].up != [] && w[i].own.owner == Some(p) && Kin(w, i) && HearStep(w, i, p).Some?
    requires w[p].own.terminating ==> w[p].own.owned == {}
    ensures SameTree(w, HearStep(w, i, p).value)
  {
    hide Apply, ProcessTermReq, UnregisterTermAck, KeepsOwner;
    HandlersKeepOwner(w[p].own, i);
    if w[i].up[0].TermAck? {
      ConsumedSameTree(w, i, w[i].(up := w[i].up[1..]), p, UnregisterTermAck(w[p].own));
    } else {
      RequestSameTree(w, i, p);
    }
  }

  lemma RequestSameTree(w: Tree, i: nat, p: nat)
    requires i < |w| && w[i].up != [] && w[i].own.owner == Some(p) && Kin(w, i)
    requires w[p].own.terminating ==> w[p].own.owned == {}
    requires var e := ProcessTermReq(w[p].own, i); KeepsOwner(w[p].own, e) && Apply(w[i := w[i].(up := w[i].up[1..])], p, e).Some?
    ensures SameTree(w, Apply(w[i := w[i].(up := w[i].up[1..])], p, ProcessTermReq(w[p].own, i)).value)
  {
    var e, u := ProcessTermReq(w[p].own, i), w[i := w[i].(up := w[i].up[1..])];
    assert i in e.terms || !Free(w[i]);
    hide Apply, ProcessTermReq, KeepsOwner;
    assert u[p].own == w[p].own;
    ApplySameTree(u, p, e);
  }

  lemma KinOf(w: Tree, i: nat)
    requires Inv(w) && i < |w|
    ensures Kin(w, i) && (w[i].own.owner.Some? ==> var o := w[w[i].own.owner.value].own; o.terminating ==> o.owned == {})
  {
    assert Family(w, i);
    if w[i].own.owner.Some? { assert Local(w[w[i].own.owner.value]); }
  }

  lemma DeliverySameTree(w: Tree, op: Op)
    requires Inv(w) && Enabled(w, op) && Delivery(op) && Step(w, op).Some?
    ensures SameTree(w, Step(w, op).value)
  {
    hide Inv, Apply, ProcessSeqnum, ProcessTerm, ProcessTermReq, UnregisterTermAck, KeepsOwner;
    var i := op.i;
    KinOf(w, i);
    HandlersKeepOwner(w[i].own, i);
    match op {
      case Post(_) =>
      case Counted(_) => ConsumedSameTree(w, i, w[i].(posted := w[i].posted - 1), i, ProcessSeqnum(w[i].own));
      case Occur(_) => ConsumedSameTree(w, i, w[i].(events := w[i].events - 1), i, UnregisterTermAck(w[i].own));
      case Receive(_) => ReceiveSameTree(w, i);
      case Hear(_) => HearSameTree(w, i, w[i].own.owner.value);
    }
  }

  lemma {:induction false} RunSameTree(w: Tree, ops: seq<Op>)
    requires Inv(w) && RunEnabled(w, ops) && (forall op :: op in ops ==> Delivery(op)) && Run(w, ops).Some?
    ensures SameTree(w, Run(w, ops).value)
    decreases |ops|
  {
    hide Inv, Step, Delivery;
    if ops != [] {
      StepKeeps(w, ops[0]);
      DeliverySameTree(w, ops[0]);
      RunSameTree(Step(w, ops[0]).value, ops[1..]);
    }
  }

  lemma {:induction false} SameBelow(w: Tree, v: Tree, i: nat, r: nat)
    requires SameTree(w, v) && i < |w|
    ensures Below(v, i, r) == Below(w, i, r)
    decreases i
  {
    if i != r && w[i].own.owner.Some? && w[i].own.owner.value < i {
      SameBelow(w, v, w[i].own.owner.value, r);
    }
  }

  /** However the deliveries are ordered, there are at most `Sum(w)` of them; and once they
      are done, every object that had asked for termination, or was told to terminate, is
      gone with all below it. */
  lemma ShutdownEnds(w: Tree, ops: seq<Op>, r: nat, i: nat)
    requires Inv(w) && RunEnabled(w, ops) && (forall op :: op in ops ==> Delivery(op))
    requires Run(w, ops).Some? ==> forall op :: Delivery(op) ==> !Enabled(Run(w, ops).value, op)
    requires r < |w| && Asked(w[r]) && i < |w| && Below(w, i, r)
    ensures |ops| <= Sum(w) && Run(w, ops).Some?
    ensures i < |Run(w, ops).value| && !Run(w, ops).value[i].own.alive
  {
    hide Inv, Quiet, Enabled, Delivery;
    DeliveriesEnd(w, ops);
    RunKeeps(w, ops);
    var v := Run(w, ops).value;
    QuietIff(v);
    RunSameTree(w, ops);
    SameBelow(w, v, i, r);
    NothingLeft(v, r, i);
  }

  /** Calling `terminate` is asking. */
  lemma TerminateAsks(w: Tree, i: nat)
    requires Inv(w) && Enabled(w, TerminateOp(i))
    ensures var r := Step(w, TerminateOp(i)); r.Some? && Inv(r.value) && i < |r.value| && Asked(r.value[i])
  {
    hide Inv;
    StepKeeps(w, TerminateOp(i));
    AsksItself(w[i].own);
    var e := Terminate(w[i].own);
    hide Terminate, CheckTermAcks;
    assert Ask(w[i := w[i].(own := e.own)], e.terms)[i].own == e.own;
  }

  lemma AsksItself(o: Object)
    ensures Terminate(o).Done? ==> Terminate(o).own.terminating || TermReq in Terminate(o).told
  {
  }
}
