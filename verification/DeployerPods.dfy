/** The online checker of deployer pods: a cache of pods per deployment config, driven by watch events. */
module DeployerPods {
  import opened Strings
  import opened Wrappers

  datatype Pod = Pod(namespace: string, name: string, uid: string,
                     annotations: map<string, string>, labels: map<string, string>, phase: string)

  const DEPLOYMENT_CONFIG_ANNOTATION := "openshift.io/deployment-config.name"
  const SUCCEEDED := "Succeeded"
  const FAILED := "Failed"

  /** The expectation of the checker that did not hold. */
  datatype Failure = NoAnnotation | EmptyOwner | OtherUid | NotFound | TwoUnterminated | LeftTerminalPhase | BadEvent

  datatype WatchEvent = Added(pod: Pod) | Modified(pod: Pod) | Deleted(pod: Pod) | Unexpected

  type Cache = map<string, seq<Pod>>

  predicate Terminated(pod: Pod) {
    pod.phase == SUCCEEDED || pod.phase == FAILED
  }

  predicate HasOwner(pod: Pod) {
    DEPLOYMENT_CONFIG_ANNOTATION in pod.annotations && Owner(pod) != ""
  }

  function Owner(pod: Pod): string
    requires DEPLOYMENT_CONFIG_ANNOTATION in pod.annotations
  {
    pod.annotations[DEPLOYMENT_CONFIG_ANNOTATION]
  }

  function Key(pod: Pod): string
    requires HasOwner(pod)
  {
    pod.namespace + "/" + Owner(pod)
  }

  function FirstSlash(s: string): nat {
    if s == "" || s[0] == '/' then 0 else 1 + FirstSlash(s[1..])
  }

  lemma {:induction false} SlashAfter(a: string, b: string)
    requires '/' !in a
    ensures FirstSlash(a + "/" + b) == |a|
  {
    if a == "" {
      assert a + "/" + b == "/" + b;
    } else {
      assert (a + "/" + b)[1..] == a[1..] + "/" + b;
      SlashAfter(a[1..], b);
    }
  }

  /** Cache keys separate owners, as no namespace contains a slash. */
  lemma KeysSeparateOwners(p: Pod, q: Pod)
    requires HasOwner(p) && HasOwner(q) && '/' !in p.namespace && '/' !in q.namespace
    ensures Key(p) == Key(q) <==> p.namespace == q.namespace && Owner(p) == Owner(q)
  {
    var m := FirstSlash(Key(p));
    SlashAfter(p.namespace, Owner(p));
    SlashAfter(q.namespace, Owner(q));
    assert Key(p)[..m] == p.namespace && Key(p)[m + 1..] == Owner(p);
    if Key(p) == Key(q) {
      assert Key(q)[..m] == q.namespace && Key(q)[m + 1..] == Owner(q);
    }
  }

  /** Pods are told apart by namespace and name. */
  predicate SamePod(p: Pod, q: Pod) {
    p.namespace == q.namespace && p.name == q.name
  }

  function Listed(cache: Cache, key: string): seq<Pod> {
    if key in cache then cache[key] else []
  }

  function Position(list: seq<Pod>, pod: Pod): (i: nat)
    ensures i <= |list| && (i < |list| ==> SamePod(list[i], pod))
    ensures forall k :: 0 <= k < i ==> !SamePod(list[k], pod)
  {
    if list == [] || SamePod(list[0], pod) then 0 else
    assert forall k :: 0 < k < |list| ==> list[k] == list[1..][k - 1];
    1 + Position(list[1..], pod)
  }

  function Unterminated(list: seq<Pod>): nat {
    if list == [] then 0 else
    Unterminated(list[..|list| - 1]) + if Terminated(list[|list| - 1]) then 0 else 1
  }

  function Without<T>(list: seq<T>, i: nat): seq<T>
    requires i < |list|
  {
    list[..i] + list[i + 1..]
  }

  class DeployerPodInvariantChecker {
    var cache: Cache

    constructor ()
      ensures cache == map[]
    {
      cache := map[];
    }

    method GetCacheKey(pod: Pod) returns (key: string, failure: Option<Failure>)
      ensures failure.None? <==> HasOwner(pod)
      ensures HasOwner(pod) ==> key == Key(pod)
      ensures failure.Some? ==>
        failure.value == if DEPLOYMENT_CONFIG_ANNOTATION in pod.annotations then EmptyOwner else NoAnnotation
    {
      if DEPLOYMENT_CONFIG_ANNOTATION !in pod.annotations {
        return "", Some(NoAnnotation);
      }
      var dcName := pod.annotations[DEPLOYMENT_CONFIG_ANNOTATION];
      if dcName == "" {
        return "", Some(EmptyOwner);
      }
      return pod.namespace + "/" + dcName, None;
    }

    method GetPodIndex(list: seq<Pod>, pod: Pod) returns (index: nat, failure: Option<Failure>)
      ensures var i := Position(list, pod);
        failure == if i == |list| then Some(NotFound) else if list[i].uid != pod.uid then Some(OtherUid) else None
      ensures failure.None? ==> index == Position(list, pod)
    {
      index := 0;
      while index < |list|
        invariant 0 <= index <= |list| && forall k :: 0 <= k < index ==> !SamePod(list[k], pod)
      {
        if list[index].name == pod.name && list[index].namespace == pod.namespace {
          return index, if list[index].uid == pod.uid then None else Some(OtherUid);
        }
        index := index + 1;
      }
      return index, Some(NotFound);
    }

    /** At most one pod of a deployment config may be unterminated. */
    method CheckInvariants(pods: seq<Pod>) returns (failure: Option<Failure>)
      ensures failure == if Unterminated(pods) <= 1 then None else Some(TwoUnterminated)
    {
      var unterminatedPods: seq<Pod> := [];
      for i := 0 to |pods|
        invariant |unterminatedPods| == Unterminated(pods[..i])
      {
        assert pods[..i + 1][..i] == pods[..i];
        if pods[i].phase != SUCCEEDED && pods[i].phase != FAILED {
          unterminatedPods := unterminatedPods + [pods[i]];
        }
      }
      assert pods[..|pods|] == pods;
      failure := if |unterminatedPods| <= 1 then None else Some(TwoUnterminated);
    }

    method AddPod(pod: Pod) returns (failure: Option<Failure>)
      modifies this
      ensures (cache, failure) == Handled(old(cache), Added(pod))
    {
      var key;
      key, failure := GetCacheKey(pod);
      if failure.Some? {
        return;
      }
      cache := cache[key := Listed(cache, key) + [pod]];
      failure := CheckInvariants(cache[key]);
    }

    method RemovePod(pod: Pod) returns (failure: Option<Failure>)
      modifies this
      ensures (cache, failure) == Handled(old(cache), Deleted(pod))
    {
      var key, index;
      key, failure := GetCacheKey(pod);
      if failure.Some? {
        return;
      }
      index, failure := GetPodIndex(Listed(cache, key), pod);
      if failure.Some? {
        return;
      }
      cache := cache[key := cache[key][..index] + cache[key][index + 1..]];
      failure := CheckInvariants(cache[key]);
    }

    method UpdatePod(pod: Pod) returns (failure: Option<Failure>)
      modifies this
      ensures (cache, failure) == Handled(old(cache), Modified(pod))
    {
      var key, index;
      key, failure := GetCacheKey(pod);
      if failure.Some? {
        return;
      }
      index, failure := GetPodIndex(Listed(cache, key), pod);
      if failure.Some? {
        return;
      }
      var oldPod := cache[key][index];
      var oldPhaseIsTerminated := oldPod.phase == SUCCEEDED || oldPod.phase == FAILED;
      if oldPhaseIsTerminated && pod.phase != oldPod.phase {
        return Some(LeftTerminalPhase);
      }
      cache := cache[key := cache[key][index := pod]];
      failure := CheckInvariants(cache[key]);
    }

    /** Handles one event; pods not named like deployers are passed over. */
    method Handle(event: WatchEvent) returns (failure: Option<Failure>)
      modifies this
      ensures (cache, failure) == Filtered(old(cache), event)
    {
      failure := None;
      match event {
        case Unexpected => failure := Some(BadEvent);
        case Added(pod) => if HasSuffix(pod.name, "-deploy") { failure := AddPod(pod); }
        case Modified(pod) => if HasSuffix(pod.name, "-deploy") { failure := UpdatePod(pod); }
        case Deleted(pod) => if HasSuffix(pod.name, "-deploy") { failure := RemovePod(pod); }
      }
    }

    /** Handles the events of a watch until one makes an expectation fail. */
    method DoChecking(events: seq<WatchEvent>) returns (handled: nat, failure: Option<Failure>)
      modifies this
      ensures (cache, handled, failure) == Checked(old(cache), events)
    {
      hide Filtered;
      handled, failure := 0, None;
      while handled < |events|
        invariant 0 <= handled <= |events| && failure.None?
        invariant Checked(old(cache), events) == Later(Checked(cache, events[handled..]), handled)
      {
        assert events[handled..][0] == events[handled] && events[handled..][1..] == events[handled + 1..];
        failure := Handle(events[handled]);
        if failure.Some? {
          return;
        }
        handled := handled + 1;
      }
    }
  }

  function Later(result: (Cache, nat, Option<Failure>), n: nat): (Cache, nat, Option<Failure>) {
    (result.0, result.1 + n, result.2)
  }

  /** What an event about a deployer pod does to the cache, and the expectation it breaks. */
  function Handled(cache: Cache, event: WatchEvent): (Cache, Option<Failure>) {
    if event.Unexpected? then (cache, Some(BadEvent)) else
    var pod := event.pod;
    if DEPLOYMENT_CONFIG_ANNOTATION !in pod.annotations then (cache, Some(NoAnnotation))
    else if Owner(pod) == "" then (cache, Some(EmptyOwner))
    else
      var key := Key(pod);
      var list := Listed(cache, key);
      var i := Position(list, pod);
      if event.Added? then Stored(cache, key, list + [pod])
      else if i == |list| then (cache, Some(NotFound))
      else if list[i].uid != pod.uid then (cache, Some(OtherUid))
      else if event.Deleted? then Stored(cache, key, Without(list, i))
      else if Terminated(list[i]) && pod.phase != list[i].phase then (cache, Some(LeftTerminalPhase))
      else Stored(cache, key, list[i := pod])
  }

  function Stored(cache: Cache, key: string, list: seq<Pod>): (Cache, Option<Failure>) {
    (cache[key := list], if Unterminated(list) <= 1 then None else Some(TwoUnterminated))
  }

  /** Only pods named like deployers are looked at. */
  function Filtered(cache: Cache, event: WatchEvent): (Cache, Option<Failure>) {
    if !event.Unexpected? && !HasSuffix(event.pod.name, "-deploy") then (cache, None) else Handled(cache, event)
  }

  /** The cache at the end, how many events passed, and the failure that stopped the checker. */
  function Checked(cache: Cache, events: seq<WatchEvent>): (Cache, nat, Option<Failure>)
    decreases |events|
  {
    if events == [] then (cache, 0, None) else
    var (next, failure) := Filtered(cache, events[0]);
    if failure.Some? then (next, 0, failure) else
    Later(Checked(next, events[1..]), 1)
  }
}
