/** An object of the ownership tree as the program keeps it, changed in place. Commands
    it sends are appended to `terms` (children told to terminate) and `told` (the
    owner). */
module OwnObject {
  import opened Options
  import O = Own

  class Own {
    var owner: Option<nat>
    var terminating: bool
    var sentSeqnum: nat
    var processedSeqnum: nat
    var owned: set<nat>
    var termAcks: nat
    var alive: bool
    var terms: seq<nat>
    var told: seq<O.Upward>

    ghost function View(): O.Object
      reads this
    {
      O.Object(owner, terminating, sentSeqnum, processedSeqnum, owned, termAcks, alive)
    }

    /** The object did `e`: its fields are as `e` says, and it sent what `e` sends, one
        command to each child. */
    twostate predicate Did(e: O.Effect)
      reads this
    {
      && e.Done? && View() == e.own && told == old(told) + e.told
      && old(terms) <= terms && |terms| == |old(terms)| + |e.terms|
      && (set c | c in terms[|old(terms)|..]) == e.terms
    }

    constructor ()
      ensures View() == O.NEW && terms == [] && told == []
    {
      owner, terminating, sentSeqnum, processedSeqnum, owned, termAcks, alive := None, false, 0, 0, {}, 0, true;
      terms, told := [], [];
    }

    method SetOwner(p: nat)
      requires owner.None?
      modifies `owner
      ensures owner == Some(p)
    {
      owner := Some(p);
    }

    method IncSeqnum()
      modifies `sentSeqnum
      ensures View() == old(View()).(sent := old(sentSeqnum) + 1)
    {
      sentSeqnum := sentSeqnum + 1;
    }

    method SendTerm(c: nat)
      modifies `terms
      ensures terms == old(terms) + [c]
    {
      terms := terms + [c];
    }

    method CheckTermAcks()
      requires O.CheckTermAcks(View()).Done?
      modifies this
      ensures Did(O.CheckTermAcks(old(View())))
    {
      if terminating && processedSeqnum == sentSeqnum && termAcks == 0 {
        assert owned == {};
        if owner.Some? { told := told + [O.TermAck]; }
        alive := false;
      }
    }

    method ProcessSeqnum()
      requires O.ProcessSeqnum(View()).Done?
      modifies this
      ensures Did(O.ProcessSeqnum(old(View())))
    {
      processedSeqnum := processedSeqnum + 1;
      CheckTermAcks();
    }

    method LaunchChild(c: nat)
      modifies this
      ensures Did(O.LaunchChild(old(View()), c))
    {
      if terminating {
        RegisterTermAcks(1);
        SendTerm(c);
        return;
      }
      owned := owned + {c};
    }

    method ProcessTermReq(c: nat)
      modifies this
      ensures Did(O.ProcessTermReq(old(View()), c))
    {
      if terminating { return; }
      if c !in owned { return; }
      owned := owned - {c};
      RegisterTermAcks(1);
      SendTerm(c);
    }

    method Terminate()
      requires O.Terminate(View()).Done?
      modifies this
      ensures Did(O.Terminate(old(View())))
    {
      if terminating { return; }
      if owner.None? {
        ProcessTerm();
        return;
      }
      told := told + [O.TermReq];
    }

    method ProcessTerm()
      requires O.ProcessTerm(View()).Done?
      modifies this
      ensures Did(O.ProcessTerm(old(View())))
    {
      assert !terminating;
      TellChildren();
      RegisterTermAcks(|owned|);
      owned := {};
      terminating := true;
      label told:
      CheckTermAcks();
      assert terms == old@told(terms);
    }

    /** The loop over the owned children. */
    method TellChildren()
      modifies `terms
      ensures old(terms) <= terms && |terms| == |old(terms)| + |owned|
      ensures (set c | c in terms[|old(terms)|..]) == owned
    {
      var left := owned;
      while left != {}
        invariant left <= owned && old(terms) <= terms && |terms| + |left| == |old(terms)| + |owned|
        invariant forall c :: c in terms[|old(terms)|..] <==> c in owned && c !in left
        decreases left
      {
        var c :| c in left;
        ghost var sent := terms[|old(terms)|..];
        SendTerm(c);
        assert terms[|old(terms)|..] == sent + [c];
        left := left - {c};
      }
    }

    method RegisterTermAcks(n: nat)
      modifies `termAcks
      ensures Did(O.RegisterTermAcks(old(View()), n))
    {
      termAcks := termAcks + n;
    }

    method UnregisterTermAck()
      requires O.UnregisterTermAck(View()).Done?
      modifies this
      ensures Did(O.UnregisterTermAck(old(View())))
    {
      assert termAcks > 0;
      termAcks := termAcks - 1;
      CheckTermAcks();
    }
  }
}
