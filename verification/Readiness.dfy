/** How the waits count the pods that are ready. */
module Readiness {
  import opened Text

  datatype PodCondition = PodCondition(typ: string, status: string)

  type Pod = seq<PodCondition>

  predicate SaysReady(c: PodCondition) {
    c.typ == "Ready" && c.status == "True"
  }

  /** How many of the conditions say that the pod is ready. */
  function Says(pod: Pod): (n: nat)
    ensures n <= |pod|
  {
    if pod == [] then 0 else Says(pod[..|pod| - 1]) + if SaysReady(pod[|pod| - 1]) then 1 else 0
  }

  function SaysAll(pods: seq<Pod>): (n: nat) {
    if pods == [] then 0 else SaysAll(pods[..|pods| - 1]) + Says(pods[|pods| - 1])
  }

  /** How many pods are ready. */
  function ReadyPods(pods: seq<Pod>): (n: nat)
    ensures n <= |pods|
  {
    if pods == [] then 0 else ReadyPods(pods[..|pods| - 1]) + if Says(pods[|pods| - 1]) > 0 then 1 else 0
  }

  /** CheckPodsReady on the listed pods; None when the listing failed. */
  method CheckPodsReady(podList: Option<seq<Pod>>, needReplicas: int) returns (failed: bool, ready: bool)
    ensures failed <==> podList.None?
    ensures ready <==> podList.Some? && Enough(podList.value, needReplicas)
  {
    if podList.None? {
      return true, false;
    }
    var pods := podList.value;
    if |pods| < needReplicas {
      return false, false;
    }
    var iReadys := 0;
    for i := 0 to |pods|
      invariant iReadys == SaysAll(pods[..i])
    {
      assert pods[..i + 1][..i] == pods[..i];
      for j := 0 to |pods[i]|
        invariant iReadys == SaysAll(pods[..i]) + Says(pods[i][..j])
      {
        assert pods[i][..j + 1][..j] == pods[i][..j];
        if pods[i][j].typ == "Ready" && pods[i][j].status == "True" {
          iReadys := iReadys + 1;
        }
      }
      assert pods[i][..|pods[i]|] == pods[i];
    }
    assert pods[..|pods|] == pods;
    return false, iReadys >= needReplicas;
  }

  lemma {:induction false} CountsNoFewer(pods: seq<Pod>)
    ensures SaysAll(pods) >= ReadyPods(pods)
    ensures (forall i :: 0 <= i < |pods| ==> Says(pods[i]) <= 1) <==> SaysAll(pods) == ReadyPods(pods)
  {
    if pods != [] {
      var n := |pods| - 1;
      CountsNoFewer(pods[..n]);
      assert (forall i :: 0 <= i < |pods| ==> Says(pods[i]) <= 1) <==>
             (forall i :: 0 <= i < n ==> Says(pods[..n][i]) <= 1) && Says(pods[n]) <= 1;
    }
  }

  /** A pod says that it is ready as often as it has that condition. */
  lemma {:induction false} SaysCounts(pod: Pod)
    ensures Says(pod) == multiset(pod)[PodCondition("Ready", "True")]
  {
    if pod != [] {
      SaysCounts(pod[..|pod| - 1]);
      assert pod == pod[..|pod| - 1] + [pod[|pod| - 1]];
    }
  }

  ghost function ReadyIndices(pods: seq<Pod>): set<nat> {
    set i | 0 <= i < |pods| && PodCondition("Ready", "True") in pods[i]
  }

  /** The ready pods are those that have the condition. */
  lemma {:induction false} ReadyPodsAreThose(pods: seq<Pod>)
    ensures ReadyPods(pods) == |ReadyIndices(pods)|
  {
    if pods != [] {
      var n := |pods| - 1;
      ReadyPodsAreThose(pods[..n]);
      SaysCounts(pods[n]);
      var more: set<nat> := if PodCondition("Ready", "True") in pods[n] then {n} else {};
      assert ReadyIndices(pods) == ReadyIndices(pods[..n]) + more;
    }
  }

  /** What the check asks for. */
  predicate Enough(pods: seq<Pod>, needReplicas: int) {
    |pods| >= needReplicas && SaysAll(pods) >= needReplicas
  }

  /** The check counts conditions, not pods. It is right about every number of replicas exactly when no
      pod says twice that it is ready, or every pod is. */
  lemma EnoughMeansEnoughPods(pods: seq<Pod>)
    ensures (forall need :: Enough(pods, need) <==> ReadyPods(pods) >= need)
            <==> (forall i :: 0 <= i < |pods| ==> Says(pods[i]) <= 1) || ReadyPods(pods) == |pods|
  {
    CountsNoFewer(pods);
    var least := ReadyPods(pods) + 1;
    assert Enough(pods, least) <==> |pods| >= least && SaysAll(pods) >= least;
  }
}
