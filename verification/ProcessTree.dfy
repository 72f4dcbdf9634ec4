/** Which processes descend from a root, by a fixpoint over parent links that may even be cyclic. */
module ProcessTree {
  type Pid = nat

  /** Following parent links k times leads from `pid` to the root. */
  ghost predicate LeadsToRoot(parents: map<Pid, Pid>, root: Pid, pid: Pid, k: nat)
    decreases k
  {
    if k == 0 then pid == root
    else pid in parents && LeadsToRoot(parents, root, parents[pid], k - 1)
  }

  ghost predicate Descends(parents: map<Pid, Pid>, root: Pid, pid: Pid) {
    exists k: nat :: LeadsToRoot(parents, root, pid, k)
  }

  /** Every child of a member is a member. */
  ghost predicate Closed(parents: map<Pid, Pid>, members: set<Pid>) {
    forall pid :: pid in parents && parents[pid] in members ==> pid in members
  }

  lemma ChildDescends(parents: map<Pid, Pid>, root: Pid, pid: Pid)
    requires pid in parents && Descends(parents, root, parents[pid])
    ensures Descends(parents, root, pid)
  {
    var k: nat :| LeadsToRoot(parents, root, parents[pid], k);
    assert LeadsToRoot(parents, root, pid, k + 1);
  }

  lemma {:induction false} ClosedHoldsEveryDescendant(parents: map<Pid, Pid>, root: Pid, members: set<Pid>,
                                                      pid: Pid, k: nat)
    requires root in members && Closed(parents, members) && LeadsToRoot(parents, root, pid, k)
    ensures pid in members
    decreases k
  {
    if k > 0 {
      ClosedHoldsEveryDescendant(parents, root, members, parents[pid], k - 1);
    }
  }

  /** Whatever order the links are visited in, the result is the set of all descendants, root included. */
  method Descendants(parents: map<Pid, Pid>, root: Pid) returns (descendants: set<Pid>)
    ensures forall pid :: pid in descendants <==> Descends(parents, root, pid)
  {
    descendants := {root};
    assert LeadsToRoot(parents, root, root, 0);
    var changed := true;
    while changed
      invariant root in descendants
      invariant forall pid :: pid in descendants ==> Descends(parents, root, pid)
      invariant !changed ==> Closed(parents, descendants)
      decreases parents.Keys - descendants, changed
    {
      changed := false;
      ghost var before := descendants;
      var rest := parents.Keys;
      while rest != {}
        invariant rest <= parents.Keys && before <= descendants
        invariant forall pid :: pid in descendants ==> Descends(parents, root, pid)
        invariant !changed ==> descendants == before
        invariant !changed ==>
          forall pid :: pid in parents.Keys - rest && parents[pid] in descendants ==> pid in descendants
        invariant changed ==> parents.Keys - descendants < parents.Keys - before
        decreases rest
      {
        var pid :| pid in rest;
        rest := rest - {pid};
        if parents[pid] in descendants && pid !in descendants {
          ChildDescends(parents, root, pid);
          descendants := descendants + {pid};
          changed := true;
          assert pid in parents.Keys - before && pid !in parents.Keys - descendants;
        }
      }
    }
    forall pid | Descends(parents, root, pid) ensures pid in descendants {
      var k: nat :| LeadsToRoot(parents, root, pid, k);
      ClosedHoldsEveryDescendant(parents, root, descendants, pid, k);
    }
  }

  // ---------------------------------------------------------------- resources

  ghost function Total(rss: map<Pid, nat>, pids: set<Pid>): nat
    requires pids <= rss.Keys
  {
    if pids == {} then 0 else
      var pid :| pid in pids;
      rss[pid] + Total(rss, pids - {pid})
  }

  lemma {:induction false} TotalWithout(rss: map<Pid, nat>, pids: set<Pid>, pid: Pid)
    requires pids <= rss.Keys && pid in pids
    ensures Total(rss, pids) == rss[pid] + Total(rss, pids - {pid})
    decreases pids
  {
    var other :| other in pids && Total(rss, pids) == rss[other] + Total(rss, pids - {other});
    if other != pid {
      TotalWithout(rss, pids - {other}, pid);
      TotalWithout(rss, pids - {pid}, other);
      assert pids - {other} - {pid} == pids - {pid} - {other};
    }
  }

  method SumResident(rss: map<Pid, nat>, pids: set<Pid>) returns (bytes: nat)
    requires pids <= rss.Keys
    ensures bytes == Total(rss, pids)
  {
    bytes := 0;
    var rest := pids;
    while rest != {}
      invariant rest <= pids && bytes + Total(rss, rest) == Total(rss, pids)
      decreases rest
    {
      var pid :| pid in rest;
      TotalWithout(rss, rest, pid);
      bytes := bytes + rss[pid];
      rest := rest - {pid};
    }
  }

  /** The descendants of the root whose memory could be read. */
  ghost function Measured(parents: map<Pid, Pid>, rss: map<Pid, nat>, root: Pid): set<Pid> {
    set pid | pid in rss && Descends(parents, root, pid)
  }

  /** How many descendants of the root were measured, and what memory they hold together. */
  method TreeResources(parents: map<Pid, Pid>, rss: map<Pid, nat>, root: Pid)
    returns (pids: nat, bytes: nat)
    ensures pids == |Measured(parents, rss, root)| && bytes == Total(rss, Measured(parents, rss, root))
  {
    var descendants := Descendants(parents, root);
    var counted := descendants * rss.Keys;
    assert counted == Measured(parents, rss, root);
    pids := |counted|;
    bytes := SumResident(rss, counted);
  }
}
