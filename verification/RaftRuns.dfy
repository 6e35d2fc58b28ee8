/** Log repair in runs of the cluster, and how runs are put together. */
module RaftRuns {
  import opened KvState
  import opened RaftCluster
  import opened RaftFullLog
  import opened RaftRefinement
  import opened RaftRepair
  import opened RaftSafety
  import opened RaftServer
  import opened RaftTypes

  // ---------- Repair ----------

  /** Every leader of every run can repair every peer, and its log has ascending terms. */
  lemma LeadersRepair(n: nat, cs: seq<Cluster>, k: nat, i: nat, peer: nat)
    requires IsRun(n, cs) && At(cs, k, i) && ServerAt(cs, k, i).role == Leader && peer < |cs[k].reps| && peer != i
    ensures Repairing(ServerAt(cs, k, i), peer) && RaftRepair.Ascending(ServerAt(cs, k, i).log)
  {
    var ss := RunSimulated(n, cs);
    FullLogAt(cs, ss, k, i, k);
    assert Inv(ss[k]);
    ServerCanRepair(ServerAt(cs, k, i), ss[k], i, peer);
    TermsInOrder(n, cs, k, i);
  }

  lemma TermsInOrder(n: nat, cs: seq<Cluster>, k: nat, i: nat)
    requires IsRun(n, cs) && At(cs, k, i)
    ensures RaftRepair.Ascending(ServerAt(cs, k, i).log)
  {
    var s := ServerAt(cs, k, i);
    forall a, b | 0 <= a <= b < |s.log| ensures s.log[a].term <= s.log[b].term {
      LogTermsOrdered(n, cs, k, i, s.log[0].index + a, s.log[0].index + b);
    }
  }

  lemma ServerCanRepair(r: Server, s: Sys, i: nat, peer: nat)
    requires Inv(s) && ServerOk(r, s, i) && r.role == Leader && peer < |s.nodes| && peer != i
    ensures Repairing(r, peer)
  {
    ServerShape(r, s, i);
    var log := s.nodes[i].log;
    assert PeerOk(s, s.nodes[i].term, |log|, peer, r.nextIndex[peer], r.matchIndex[peer]);
    if First(r).index > 0 {
      assert Created(s, log, First(r).index);
      assert LeaderLogOk(s, First(r).term);
    }
  }

  /** Log repair bound: in every run, whatever states of its own term or below the leader finds the peer
      in, one attempt more than its log has terms ends in success or with the snapshot being due. */
  lemma RepairEnds(n: nat, cs: seq<Cluster>, k: nat, i: nat, peer: nat, fs: seq<Server>)
    requires IsRun(n, cs) && At(cs, k, i) && ServerAt(cs, k, i).role == Leader && peer < |cs[k].reps| && peer != i
    requires AllFollow(ServerAt(cs, k, i), fs) && |fs| >= |TermsOf(ServerAt(cs, k, i).log)| + 1
    ensures Repairing(ServerAt(cs, k, i), peer) && Repaired(ServerAt(cs, k, i), peer, fs)
  {
    LeadersRepair(n, cs, k, i, peer);
    RepairBound(ServerAt(cs, k, i), peer, fs);
  }

  // ---------- Reachable clusters ----------

  ghost predicate Reaches(n: nat, c: Cluster) {
    exists cs :: IsRun(n, cs) && cs[|cs| - 1] == c
  }

  lemma ReachesInit(n: nat)
    ensures Reaches(n, Init(n))
  {
    var cs := [Init(n)];
    assert IsRun(n, cs) && cs[|cs| - 1] == Init(n);
  }

  lemma Go(n: nat, c: Cluster, a: Action) returns (c': Cluster)
    requires Reaches(n, c) && Enabled(c, a)
    ensures c' == Perform(c, a) && Reaches(n, c')
  {
    c' := Perform(c, a);
    var cs :| IsRun(n, cs) && cs[|cs| - 1] == c;
    assert Next(c, c');
    RunExtends(n, cs, c');
  }

  lemma RunExtends(n: nat, cs: seq<Cluster>, c': Cluster)
    requires IsRun(n, cs) && Next(cs[|cs| - 1], c')
    ensures IsRun(n, cs + [c']) && Reaches(n, c')
  {
    var longer := cs + [c'];
    forall k | 0 <= k < |longer| - 1 ensures Next(longer[k], longer[k + 1]) {
      if k < |cs| - 1 {
        assert longer[k] == cs[k] && longer[k + 1] == cs[k + 1];
      }
    }
    assert longer[|longer| - 1] == c';
  }

  /** Reachable clusters are in shape, and their packets can be delivered. */
  lemma InShape(n: nat, c: Cluster)
    requires Reaches(n, c)
    ensures Shape(c) && |c.reps| == n
    ensures forall p | p in c.net :: Enabled(c, Deliver(p))
  {
    var cs :| IsRun(n, cs) && cs[|cs| - 1] == c;
    HandlersInRange(n, cs, |cs| - 1);
    RunSize(n, cs, |cs| - 1);
  }

  lemma RunSize(n: nat, cs: seq<Cluster>, k: nat)
    requires IsRun(n, cs) && k < |cs|
    ensures |cs[k].reps| == n
  {
    var ss := RunSimulated(n, cs);
    assert R(cs[0], ss[0]) && R(cs[k], ss[k]) && Grows(ss[0], ss[k]);
  }
}
