/** The invariants of one deployment config: its deployer and hook pods, and its replication controllers. */
module Deployments {
  import opened Strings
  import opened Wrappers
  import opened DeployerPods

  const DEPLOYER_POD_LABEL := "openshift.io/deployer-pod-for.name"

  const NEW := "New"
  const PENDING := "Pending"
  const RUNNING := "Running"
  const COMPLETE := "Complete"

  // ---- statuses of the replication controllers, oldest first ----

  predicate Finished(status: string) {
    status == COMPLETE || status == FAILED
  }

  predicate InFlight(status: string) {
    status == RUNNING || status == PENDING
  }

  predicate AllFinished(statuses: seq<string>) {
    forall i :: 0 <= i < |statuses| ==> Finished(statuses[i])
  }

  predicate AllNewFrom(statuses: seq<string>, b: nat) {
    forall i :: b <= i < |statuses| ==> statuses[i] == NEW
  }

  /** Finished controllers, then up to one in flight, then new ones. */
  predicate Phased(statuses: seq<string>, a: nat) {
    && a <= |statuses| && AllFinished(statuses[..a])
    && (AllNewFrom(statuses, a) || (a < |statuses| && InFlight(statuses[a]) && AllNewFrom(statuses, a + 1)))
  }

  /** The language of histories the checker lets through: phased ones, and any first status followed by new ones. */
  ghost predicate Regular(statuses: seq<string>) {
    (exists a: nat :: Phased(statuses, a)) || (statuses != [] && AllNewFrom(statuses, 1))
  }

  /** What may follow a regular history. */
  predicate MayFollow(before: seq<string>, status: string) {
    before == [] || status == NEW || ((Finished(status) || InFlight(status)) && AllFinished(before))
  }

  lemma RegularPrefix(statuses: seq<string>, i: nat)
    requires Regular(statuses) && i <= |statuses|
    ensures Regular(statuses[..i])
  {
    var p := statuses[..i];
    if a: nat :| Phased(statuses, a) {
      var b := if a < i then a else i;
      assert p[..b] == statuses[..b];
      assert forall k :: 0 <= k < b ==> statuses[..a][k] == p[..b][k];
      assert Phased(p, b);
    } else if i == 0 {
      assert Phased(p, 0);
    }
  }

  lemma RegularNext(before: seq<string>, status: string)
    requires Regular(before)
    ensures Regular(before + [status]) <==> MayFollow(before, status)
  {
    var after := before + [status];
    if MayFollow(before, status) {
      Extended(before, status);
    }
    if Regular(after) {
      Restricted(before, status);
    }
  }

  lemma Extended(before: seq<string>, status: string)
    requires Regular(before) && MayFollow(before, status)
    ensures Regular(before + [status])
  {
    var after := before + [status];
    if before == [] {
      assert AllNewFrom(after, 1);
    } else if status == NEW {
      if a: nat :| Phased(before, a) {
        assert after[..a] == before[..a];
        assert Phased(after, a);
      }
    } else {
      var a := if InFlight(status) then |before| else |after|;
      assert after[..|before|] == before && after[..|after|] == after;
      assert Phased(after, a);
    }
  }

  lemma Restricted(before: seq<string>, status: string)
    requires Regular(before + [status])
    ensures MayFollow(before, status)
  {
    var after := before + [status];
    if before != [] && status != NEW {
      assert after[|before|] == status;
      var a: nat :| Phased(after, a);
      assert a >= |before|;
      assert forall k :: 0 <= k < |before| ==> before[k] == after[..a][k];
      assert a > |before| ==> after[..a][|before|] == status;
    }
  }

  datatype StatusError = EarlierNotCompleted | SameEarlier | UnexpectedStatus

  /** The history is in order before controller `i` and not with it, and for what reason. */
  ghost predicate StopsAt(statuses: seq<string>, i: nat, reason: StatusError)
    requires i < |statuses|
  {
    var before, status := statuses[..i], statuses[i];
    && Regular(before) && !Regular(before + [status])
    && (reason == UnexpectedStatus <==> !Finished(status) && !InFlight(status) && status != NEW)
    && (reason == SameEarlier <==> InFlight(status) && status in before)
  }

  /** One pass with a set of the statuses seen decides the language. */
  method CheckStatuses(statuses: seq<string>) returns (error: Option<StatusError>)
    ensures error.None? <==> Regular(statuses)
    ensures error.Some? ==> exists i :: 0 < i < |statuses| && StopsAt(statuses, i, error.value)
  {
    hide Regular;
    var sawStatus: set<string> := {};
    EmptyRegular();
    for i := 0 to |statuses|
      invariant sawStatus == set k | 0 <= k < i :: statuses[k]
      invariant Regular(statuses[..i])
    {
      var status := statuses[i];
      SeenFinished(statuses[..i], sawStatus);
      RegularNext(statuses[..i], status);
      assert statuses[..i + 1] == statuses[..i] + [status];
      var others := sawStatus - {COMPLETE, FAILED};
      error := None;
      if sawStatus != {} {
        if status == COMPLETE || status == FAILED {
          if others != {} {
            error := Some(EarlierNotCompleted);
          }
        } else if status == RUNNING || status == PENDING {
          if status in sawStatus {
            error := Some(SameEarlier);
          } else if others != {} {
            error := Some(EarlierNotCompleted);
          }
        } else if status != NEW {
          error := Some(UnexpectedStatus);
        }
      }
      if error.Some? {
        if Regular(statuses) {
          RegularPrefix(statuses, i + 1);
        }
        assert status in sawStatus <==> status in statuses[..i];
        assert StopsAt(statuses, i, error.value);
        return;
      }
      sawStatus := sawStatus + {status};
    }
    assert statuses[..|statuses|] == statuses;
    error := None;
  }

  lemma EmptyRegular()
    ensures Regular([])
  {
    assert Phased([], 0);
  }

  lemma SeenFinished(before: seq<string>, saw: set<string>)
    requires saw == set k | 0 <= k < |before| :: before[k]
    ensures saw == {} <==> before == []
    ensures saw - {COMPLETE, FAILED} == {} <==> AllFinished(before)
    ensures forall s :: s in saw && !Finished(s) ==> !AllFinished(before)
  {
    assert before != [] ==> before[0] in saw;
    if !AllFinished(before) {
      var k :| 0 <= k < |before| && !Finished(before[k]);
      assert before[k] in saw - {COMPLETE, FAILED};
    }
  }

  /** In a regular history whatever is not new, after the first, comes after finished controllers only. */
  lemma OneInFlight(statuses: seq<string>, j: nat)
    requires Regular(statuses) && 0 < j < |statuses| && statuses[j] != NEW
    ensures AllFinished(statuses[..j]) && (Finished(statuses[j]) || InFlight(statuses[j]))
  {
    RegularPrefix(statuses, j + 1);
    assert statuses[..j + 1] == statuses[..j] + [statuses[j]];
    Restricted(statuses[..j], statuses[j]);
  }

  // ---- deployer and hook pods of one deployment ----

  predicate IsDeployer(pod: Pod) {
    HasSuffix(pod.name, "-deploy")
  }

  predicate IsHook(pod: Pod) {
    HasSuffix(pod.name, "-pre") || HasSuffix(pod.name, "-mid") || HasSuffix(pod.name, "-post")
  }

  /** What a pod is goes by the end of its name. */
  lemma NamesIff(pod: Pod)
    ensures IsDeployer(pod) <==> exists front :: pod.name == front + "-deploy"
    ensures IsHook(pod) <==>
      exists front :: pod.name == front + "-pre" || pod.name == front + "-mid" || pod.name == front + "-post"
  {
    hide HasSuffix;
    HasSuffixIff(pod.name, "-deploy");
    HasSuffixIff(pod.name, "-pre");
    HasSuffixIff(pod.name, "-mid");
    HasSuffixIff(pod.name, "-post");
  }

  datatype PodsError = MultipleDeployers | NotRecognized | HookFailed

  datatype PodsVerdict = Invalid(error: PodsError) | Valid(isRunning: bool, isCompleted: bool)

  ghost predicate ManyDeployers(pods: seq<Pod>) {
    exists i, j :: 0 <= i < j < |pods| && IsDeployer(pods[i]) && IsDeployer(pods[j])
  }

  ghost predicate Stranger(pods: seq<Pod>) {
    exists i :: 0 <= i < |pods| && !IsDeployer(pods[i]) && !IsHook(pods[i])
  }

  /** A hook failed although a deployer pod succeeded. */
  ghost predicate HookContradicts(pods: seq<Pod>) {
    && (exists i :: 0 <= i < |pods| && IsDeployer(pods[i]) && pods[i].phase == SUCCEEDED)
    && (exists i :: 0 <= i < |pods| && IsHook(pods[i]) && pods[i].phase == FAILED)
  }

  ghost predicate DeployerRunning(pods: seq<Pod>) {
    exists i :: 0 <= i < |pods| && IsDeployer(pods[i]) && !Terminated(pods[i])
  }

  ghost predicate DeployerDone(pods: seq<Pod>) {
    exists i :: 0 <= i < |pods| && IsDeployer(pods[i]) && Terminated(pods[i])
  }

  method CheckDeployerPodInvariants(pods: seq<Pod>) returns (verdict: PodsVerdict)
    ensures verdict.Invalid? <==> ManyDeployers(pods) || Stranger(pods) || HookContradicts(pods)
    ensures verdict == Invalid(MultipleDeployers) ==> ManyDeployers(pods)
    ensures verdict == Invalid(NotRecognized) ==> Stranger(pods)
    ensures verdict == Invalid(HookFailed) ==> HookContradicts(pods) && !ManyDeployers(pods) && !Stranger(pods)
    ensures verdict.Valid? ==>
      verdict.isRunning == DeployerRunning(pods) && verdict.isCompleted == DeployerDone(pods)
  {
    hide HasSuffix;
    var running, completed, succeeded, hasDeployer := false, false, false, false;
    ghost var d := 0;
    for i := 0 to |pods|
      invariant hasDeployer ==> 0 <= d < i && IsDeployer(pods[d])
      invariant forall k :: 0 <= k < i ==> if IsDeployer(pods[k]) then hasDeployer && k == d else IsHook(pods[k])
      invariant running <==> hasDeployer && !Terminated(pods[d])
      invariant completed <==> hasDeployer && Terminated(pods[d])
      invariant succeeded <==> hasDeployer && pods[d].phase == SUCCEEDED
    {
      var pod := pods[i];
      if HasSuffix(pod.name, "-deploy") {
        if hasDeployer {
          assert IsDeployer(pods[d]) && IsDeployer(pods[i]);
          return Invalid(MultipleDeployers);
        }
        hasDeployer, d := true, i;
        if pod.phase == SUCCEEDED {
          succeeded, completed := true, true;
        } else if pod.phase == FAILED {
          completed := true;
        } else {
          running := true;
        }
      } else if !(HasSuffix(pod.name, "-pre") || HasSuffix(pod.name, "-mid") || HasSuffix(pod.name, "-post")) {
        return Invalid(NotRecognized);
      }
    }
    for i := 0 to |pods|
      invariant succeeded ==> forall k :: 0 <= k < i ==> !(IsHook(pods[k]) && pods[k].phase == FAILED)
    {
      var pod := pods[i];
      if HasSuffix(pod.name, "-pre") || HasSuffix(pod.name, "-mid") || HasSuffix(pod.name, "-post") {
        if pod.phase == FAILED && succeeded {
          return Invalid(HookFailed);
        }
      }
    }
    return Valid(running, completed);
  }

  // ---- the whole check ----

  function PodsFor(pods: seq<Pod>, deployment: string): seq<Pod> {
    if pods == [] then [] else
    var last := pods[|pods| - 1];
    PodsFor(pods[..|pods| - 1], deployment)
    + if DEPLOYER_POD_LABEL in last.labels && last.labels[DEPLOYER_POD_LABEL] == deployment then [last] else []
  }

  /** Pods by the deployment they deploy; pods without the label are left out. */
  method DeploymentPods(pods: seq<Pod>) returns (deployers: map<string, seq<Pod>>)
    ensures forall d :: d in deployers <==> PodsFor(pods, d) != []
    ensures forall d :: d in deployers ==> deployers[d] == PodsFor(pods, d)
  {
    deployers := map[];
    for i := 0 to |pods|
      invariant forall d :: d in deployers <==> PodsFor(pods[..i], d) != []
      invariant forall d :: d in deployers ==> deployers[d] == PodsFor(pods[..i], d)
    {
      assert pods[..i + 1][..i] == pods[..i];
      if DEPLOYER_POD_LABEL in pods[i].labels {
        var name := pods[i].labels[DEPLOYER_POD_LABEL];
        deployers := deployers[name := Listed(deployers, name) + [pods[i]]];
      }
    }
    assert pods[..|pods|] == pods;
  }

  ghost predicate PodsInvalid(pods: seq<Pod>) {
    ManyDeployers(pods) || Stranger(pods) || HookContradicts(pods)
  }

  ghost predicate GroupInvalid(pods: seq<Pod>, d: string) {
    PodsInvalid(PodsFor(pods, d))
  }

  ghost predicate GroupRuns(pods: seq<Pod>, d: string) {
    DeployerRunning(PodsFor(pods, d))
  }

  /** Two deployments have a running deployer pod. */
  ghost predicate TwoRunning(pods: seq<Pod>) {
    exists d, e :: d != e && GroupRuns(pods, d) && GroupRuns(pods, e)
  }

  // ---- the grouping, and the same over all pods at once ----

  predicate Labelled(p: Pod, d: string) {
    DEPLOYER_POD_LABEL in p.labels && p.labels[DEPLOYER_POD_LABEL] == d
  }

  /** A group holds every occurrence of every pod with the label, whatever the pod is called, and no other. */
  lemma {:induction false} PodsForExactly(pods: seq<Pod>, d: string, p: Pod)
    ensures multiset(PodsFor(pods, d))[p] ==
      if DEPLOYER_POD_LABEL in p.labels && p.labels[DEPLOYER_POD_LABEL] == d then multiset(pods)[p] else 0
  {
    if pods != [] {
      var n := |pods| - 1;
      PodsForExactly(pods[..n], d, p);
      LastPodFor(pods, d);
      hide PodsFor;
      assert pods == pods[..n] + [pods[n]];
    }
  }

  lemma LastPodFor(pods: seq<Pod>, d: string)
    requires pods != []
    ensures var n := |pods| - 1;
      PodsFor(pods, d) == PodsFor(pods[..n], d) + if Labelled(pods[n], d) then [pods[n]] else []
  {
  }

  /** Pods stay in their order. */
  lemma {:induction false} PodsForInOrder(a: seq<Pod>, b: seq<Pod>, d: string)
    ensures PodsFor(a + b, d) == PodsFor(a, d) + PodsFor(b, d)
  {
    if b == [] {
      assert a + b == a;
    } else {
      assert (a + b)[..|a + b| - 1] == a + b[..|b| - 1];
      PodsForInOrder(a, b[..|b| - 1], d);
    }
  }

  lemma HasPodFor(pods: seq<Pod>, d: string, p: Pod)
    ensures p in PodsFor(pods, d) <==> p in pods && Labelled(p, d)
  {
    PodsForExactly(pods, d, p);
    hide PodsFor;
    assert p in PodsFor(pods, d) <==> p in multiset(PodsFor(pods, d));
    assert p in pods <==> p in multiset(pods);
  }

  /** Two deployer pods at different places carry one label. */
  ghost predicate TwoDeployers(pods: seq<Pod>, d: string) {
    exists i, j :: 0 <= i < j < |pods|
      && Labelled(pods[i], d) && IsDeployer(pods[i]) && Labelled(pods[j], d) && IsDeployer(pods[j])
  }

  lemma {:induction false} TwoDeployersIff(pods: seq<Pod>, d: string)
    ensures ManyDeployers(PodsFor(pods, d)) <==> TwoDeployers(pods, d)
  {
    hide IsDeployer, Labelled;
    if pods != [] {
      var n := |pods| - 1;
      var front, group, p := pods[..n], PodsFor(pods[..n], d), pods[n];
      TwoDeployersIff(front, d);
      LastPodFor(pods, d);
      HasDeployerFor(front, d);
      hide PodsFor;
      OneMoreDeployer(group, p);
      OneMoreLabelled(front, p, d);
      assert pods == front + [p] && group + [] == group;
    }
  }

  ghost predicate OneDeployer(pods: seq<Pod>, d: string) {
    exists i :: 0 <= i < |pods| && Labelled(pods[i], d) && IsDeployer(pods[i])
  }

  lemma HasDeployerFor(pods: seq<Pod>, d: string)
    ensures (exists i :: 0 <= i < |PodsFor(pods, d)| && IsDeployer(PodsFor(pods, d)[i])) <==> OneDeployer(pods, d)
  {
    hide IsDeployer, Labelled, PodsFor;
    var group := PodsFor(pods, d);
    if i :| 0 <= i < |group| && IsDeployer(group[i]) {
      HasPodFor(pods, d, group[i]);
    }
    if i :| 0 <= i < |pods| && Labelled(pods[i], d) && IsDeployer(pods[i]) {
      HasPodFor(pods, d, pods[i]);
    }
  }

  lemma OneMoreDeployer(group: seq<Pod>, p: Pod)
    ensures ManyDeployers(group + [p]) <==>
      ManyDeployers(group) || (IsDeployer(p) && exists i :: 0 <= i < |group| && IsDeployer(group[i]))
  {
    hide IsDeployer;
    var more := group + [p];
    assert forall i :: 0 <= i < |group| ==> more[i] == group[i];
    if i :| IsDeployer(p) && 0 <= i < |group| && IsDeployer(group[i]) {
      assert IsDeployer(more[i]) && IsDeployer(more[|group|]);
    }
    if i, j :| 0 <= i < j < |group| && IsDeployer(group[i]) && IsDeployer(group[j]) {
      assert IsDeployer(more[i]) && IsDeployer(more[j]);
    }
  }

  lemma OneMoreLabelled(front: seq<Pod>, p: Pod, d: string)
    ensures TwoDeployers(front + [p], d) <==>
      TwoDeployers(front, d) || (Labelled(p, d) && IsDeployer(p) && OneDeployer(front, d))
  {
    hide IsDeployer, Labelled;
    var more := front + [p];
    assert forall i :: 0 <= i < |front| ==> more[i] == front[i];
    if i :| Labelled(p, d) && IsDeployer(p) && 0 <= i < |front| && Labelled(front[i], d) && IsDeployer(front[i]) {
      assert Labelled(more[i], d) && IsDeployer(more[i]) && Labelled(more[|front|], d) && IsDeployer(more[|front|]);
    }
    if TwoDeployers(front, d) {
      var i, j :| 0 <= i < j < |front|
        && Labelled(front[i], d) && IsDeployer(front[i]) && Labelled(front[j], d) && IsDeployer(front[j]);
      assert Labelled(more[i], d) && IsDeployer(more[i]) && Labelled(more[j], d) && IsDeployer(more[j]);
    }
  }

  /** A pod with a label has no place in a deployment. */
  ghost predicate Foreign(pods: seq<Pod>, d: string) {
    exists p :: p in pods && Labelled(p, d) && !IsDeployer(p) && !IsHook(p)
  }

  /** Of one label, a deployer pod succeeded and a hook pod failed. */
  ghost predicate HookFailedBeside(pods: seq<Pod>, d: string) {
    && (exists p :: p in pods && Labelled(p, d) && IsDeployer(p) && p.phase == SUCCEEDED)
    && (exists p :: p in pods && Labelled(p, d) && IsHook(p) && p.phase == FAILED)
  }

  ghost predicate RunsDeployer(pods: seq<Pod>, d: string) {
    exists p :: p in pods && Labelled(p, d) && IsDeployer(p) && !Terminated(p)
  }

  ghost predicate Defective(pods: seq<Pod>, d: string) {
    TwoDeployers(pods, d) || Foreign(pods, d) || HookFailedBeside(pods, d)
  }

  /** What is asked of the pods: of every label, and of any two labels that they do not both run a deployer. */
  ghost predicate Tidy(pods: seq<Pod>) {
    && (forall d :: !Defective(pods, d))
    && (forall d, e :: RunsDeployer(pods, d) && RunsDeployer(pods, e) ==> d == e)
  }

  lemma GroupsAlike(pods: seq<Pod>, d: string)
    ensures Stranger(PodsFor(pods, d)) <==> Foreign(pods, d)
    ensures HookContradicts(PodsFor(pods, d)) <==> HookFailedBeside(pods, d)
    ensures DeployerRunning(PodsFor(pods, d)) <==> RunsDeployer(pods, d)
  {
    hide IsDeployer, IsHook, Labelled, PodsFor, Terminated;
    forall p ensures p in PodsFor(pods, d) <==> p in pods && Labelled(p, d) {
      HasPodFor(pods, d, p);
    }
    ByMember(PodsFor(pods, d));
  }

  /** The defects of a group by its members. */
  lemma ByMember(group: seq<Pod>)
    ensures Stranger(group) <==> exists p :: p in group && !IsDeployer(p) && !IsHook(p)
    ensures HookContradicts(group) <==>
      && (exists p :: p in group && IsDeployer(p) && p.phase == SUCCEEDED)
      && (exists p :: p in group && IsHook(p) && p.phase == FAILED)
    ensures DeployerRunning(group) <==> exists p :: p in group && IsDeployer(p) && !Terminated(p)
  {
    hide IsDeployer, IsHook, Terminated;
    assert forall i :: 0 <= i < |group| ==> group[i] in group;
  }

  lemma TidyIff(pods: seq<Pod>)
    ensures Tidy(pods) <==> (forall d :: !GroupInvalid(pods, d)) && !TwoRunning(pods)
  {
    hide Defective, GroupInvalid, RunsDeployer, GroupRuns;
    forall d
      ensures GroupInvalid(pods, d) <==> Defective(pods, d)
      ensures GroupRuns(pods, d) <==> RunsDeployer(pods, d)
    {
      DefectiveIff(pods, d);
    }
    if Tidy(pods) {
      forall d ensures !GroupInvalid(pods, d) {
        assert !Defective(pods, d);
      }
      forall d, e | GroupRuns(pods, d) && GroupRuns(pods, e) ensures d == e {
        assert RunsDeployer(pods, d) && RunsDeployer(pods, e);
      }
    } else if (forall d :: !GroupInvalid(pods, d)) && !TwoRunning(pods) {
      forall d ensures !Defective(pods, d) {
        assert !GroupInvalid(pods, d);
      }
      forall d, e | RunsDeployer(pods, d) && RunsDeployer(pods, e) ensures d == e {
        assert GroupRuns(pods, d) && GroupRuns(pods, e);
      }
    }
  }

  lemma DefectiveIff(pods: seq<Pod>, d: string)
    ensures GroupInvalid(pods, d) <==> Defective(pods, d)
    ensures GroupRuns(pods, d) <==> RunsDeployer(pods, d)
  {
    hide TwoDeployers, Foreign, HookFailedBeside, RunsDeployer, ManyDeployers, Stranger, HookContradicts, PodsFor;
    hide DeployerRunning;
    TwoDeployersIff(pods, d);
    GroupsAlike(pods, d);
  }

  datatype DeploymentError = BadPods(d: string, p: PodsError) | ManyRunning | BadStatuses(s: StatusError)

  /** Groups are visited in any order, as a Go map is. */
  method CheckDeploymentInvariants(statuses: seq<string>, pods: seq<Pod>) returns (error: Option<DeploymentError>)
    ensures error.None? <==> Tidy(pods) && Regular(statuses)
    ensures error.None? <==> (forall d :: !GroupInvalid(pods, d)) && !TwoRunning(pods) && Regular(statuses)
    ensures error.Some? && error.value.BadPods? ==> GroupInvalid(pods, error.value.d)
    ensures error.Some? && !error.value.BadPods? ==> forall d :: !GroupInvalid(pods, d)
    ensures error.Some? && error.value.ManyRunning? ==> TwoRunning(pods)
    ensures error.Some? && error.value.BadStatuses? ==> !TwoRunning(pods) && !Regular(statuses)
  {
    hide Regular, PodsFor, ManyDeployers, Stranger, HookContradicts, DeployerRunning, DeployerDone, Tidy;
    TidyIff(pods);
    var deployers := DeploymentPods(pods);
    var todo := deployers.Keys;
    var running: set<string> := {};
    var completed := 0;
    while todo != {}
      invariant todo <= deployers.Keys
      invariant forall d :: d in deployers && d !in todo ==> !GroupInvalid(pods, d)
      invariant forall d :: d in running <==> d in deployers && d !in todo && GroupRuns(pods, d)
      decreases todo
    {
      var d :| d in todo;
      todo := todo - {d};
      var verdict := CheckDeployerPodInvariants(deployers[d]);
      if verdict.Invalid? {
        assert GroupInvalid(pods, d);
        assert !Tidy(pods);
        return Some(BadPods(d, verdict.error));
      }
      if verdict.isCompleted {
        completed := completed + 1;
      }
      if verdict.isRunning {
        running := running + {d};
      }
    }
    NoPodsNoTrouble();
    AtMostOne(running);
    if |running| > 1 {
      return Some(ManyRunning);
    }
    var statusError := CheckStatuses(statuses);
    error := if statusError.None? then None else Some(BadStatuses(statusError.value));
  }

  lemma NoPodsNoTrouble()
    ensures !PodsInvalid([]) && !DeployerRunning([])
  {
  }

  lemma AtMostOne<T(!new)>(s: set<T>)
    ensures |s| <= 1 <==> forall x, y :: x in s && y in s ==> x == y
  {
    if s != {} {
      var x :| x in s;
      var rest := s - {x};
      assert |rest| == |s| - 1;
      if rest == {} {
        assert forall y :: y in s ==> y == x || y in rest;
      } else {
        var y :| y in rest;
        assert x in s && y in s && x != y;
      }
    }
  }
}
