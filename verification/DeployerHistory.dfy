/** The pod checker against the history of the cluster: when it fails, and what its cache stands for. */
module DeployerHistory {
  import opened Strings
  import opened Wrappers
  import opened DeployerPods

  type Id = (string, string)

  /** The deployer pods that exist, by namespace and name. */
  type Live = map<Id, Pod>

  function IdOf(pod: Pod): Id {
    (pod.namespace, pod.name)
  }

  predicate Watched(e: WatchEvent) {
    !e.Unexpected? && HasSuffix(e.pod.name, "-deploy")
  }

  function Track(live: Live, e: WatchEvent): Live {
    if !Watched(e) then live
    else if e.Deleted? then live - {IdOf(e.pod)}
    else live[IdOf(e.pod) := e.pod]
  }

  function History(events: seq<WatchEvent>): Live {
    if events == [] then map[] else Track(History(events[..|events| - 1]), events[|events| - 1])
  }

  /** What a watch promises: pods are added once, and changed or deleted only while they exist. */
  predicate Orderly(live: Live, e: WatchEvent) {
    && !e.Unexpected?
    && (Watched(e) ==>
          && HasOwner(e.pod)
          && (e.Added? <==> IdOf(e.pod) !in live)
          && (!e.Added? ==> var old_ := live[IdOf(e.pod)];
                HasOwner(old_) && Key(old_) == Key(e.pod) && old_.uid == e.pod.uid))
  }

  predicate OrderlyStream(events: seq<WatchEvent>) {
    forall i :: 0 <= i < |events| ==> Orderly(History(events[..i]), events[i])
  }

  predicate IsOpen(live: Live, id: Id) {
    id in live && !Terminated(live[id]) && HasOwner(live[id])
  }

  /** Two unterminated deployer pods have one cache key. */
  ghost predicate TwoOpen(live: Live) {
    exists a, b :: a != b && IsOpen(live, a) && IsOpen(live, b) && Key(live[a]) == Key(live[b])
  }

  /** A pod is reported in another phase after it was seen succeeded or failed. */
  predicate LeavesTerminal(live: Live, e: WatchEvent) {
    && Watched(e) && e.Modified? && IdOf(e.pod) in live
    && Terminated(live[IdOf(e.pod)]) && e.pod.phase != live[IdOf(e.pod)].phase
  }

  ghost predicate Breaks(live: Live, e: WatchEvent) {
    LeavesTerminal(live, e) || TwoOpen(Track(live, e))
  }

  // ---- what the cache stands for ----

  ghost predicate ListFits(key: string, list: seq<Pod>, live: Live) {
    && (forall i :: 0 <= i < |list| ==>
          HasOwner(list[i]) && Key(list[i]) == key && IdOf(list[i]) in live && live[IdOf(list[i])] == list[i])
    && (forall i, j :: 0 <= i < j < |list| ==> !SamePod(list[i], list[j]))
  }

  predicate Placed(cache: Cache, pod: Pod, id: Id) {
    IdOf(pod) == id && HasOwner(pod) && pod in Listed(cache, Key(pod))
  }

  /** The cache holds exactly the live pods, each once, under its owner. */
  ghost predicate Represents(cache: Cache, live: Live) {
    && (forall k :: k in cache ==> ListFits(k, cache[k], live))
    && (forall id :: id in live ==> Placed(cache, live[id], id))
  }

  ghost predicate Quiet(cache: Cache) {
    forall k :: k in cache ==> Unterminated(cache[k]) <= 1
  }

  lemma {:induction false} OneOpen(list: seq<Pod>, i: nat)
    requires i < |list| && !Terminated(list[i])
    ensures Unterminated(list) >= 1
  {
    var n := |list| - 1;
    if i < n {
      OneOpen(list[..n], i);
    }
  }

  lemma {:induction false} TwoInList(list: seq<Pod>, i: nat, j: nat)
    requires i < j < |list| && !Terminated(list[i]) && !Terminated(list[j])
    ensures Unterminated(list) >= 2
  {
    var n := |list| - 1;
    if j < n {
      TwoInList(list[..n], i, j);
    } else {
      OneOpen(list[..n], i);
    }
  }

  lemma {:induction false} FindOpen(list: seq<Pod>) returns (i: nat)
    requires Unterminated(list) >= 1
    ensures i < |list| && !Terminated(list[i])
  {
    i := |list| - 1;
    if Terminated(list[i]) {
      i := FindOpen(list[..i]);
    }
  }

  lemma {:induction false} FindTwo(list: seq<Pod>) returns (i: nat, j: nat)
    requires Unterminated(list) >= 2
    ensures i < j < |list| && !Terminated(list[i]) && !Terminated(list[j])
  {
    j := |list| - 1;
    if Terminated(list[j]) {
      i, j := FindTwo(list[..j]);
    } else {
      i := FindOpen(list[..j]);
    }
  }

  lemma TwoOpenCounted(cache: Cache, live: Live, a: Id, b: Id)
    requires Represents(cache, live) && a != b && IsOpen(live, a) && IsOpen(live, b) && Key(live[a]) == Key(live[b])
    ensures Key(live[a]) in cache && Unterminated(cache[Key(live[a])]) >= 2
  {
    hide Unterminated;
    assert Placed(cache, live[a], a) && Placed(cache, live[b], b);
    hide Represents;
    var list := Listed(cache, Key(live[a]));
    var i :| 0 <= i < |list| && list[i] == live[a];
    var j :| 0 <= j < |list| && list[j] == live[b];
    TwoInList(list, if i < j then i else j, if i < j then j else i);
  }

  lemma CountedTwoOpen(cache: Cache, live: Live, k: string)
    requires k in cache && ListFits(k, cache[k], live) && Unterminated(cache[k]) >= 2
    ensures TwoOpen(live)
  {
    var i, j := FindTwo(cache[k]);
    hide Unterminated;
    var a, b := IdOf(cache[k][i]), IdOf(cache[k][j]);
    assert a != b && IsOpen(live, a) && IsOpen(live, b) && Key(live[a]) == Key(live[b]);
  }

  /** The cache counts two unterminated pods for an owner exactly when there are two. */
  lemma QuietMeansNotTwo(cache: Cache, live: Live)
    requires Represents(cache, live)
    ensures Quiet(cache) <==> !TwoOpen(live)
  {
    hide Unterminated, ListFits;
    if TwoOpen(live) {
      var a, b :| a != b && IsOpen(live, a) && IsOpen(live, b) && Key(live[a]) == Key(live[b]);
      TwoOpenCounted(cache, live, a, b);
    }
    if !Quiet(cache) {
      var k :| k in cache && Unterminated(cache[k]) > 1;
      CountedTwoOpen(cache, live, k);
    }
  }

  /** An existing pod is found in its owner's list, as it was last seen. */
  lemma FoundInList(cache: Cache, live: Live, pod: Pod)
    requires Represents(cache, live) && HasOwner(pod) && IdOf(pod) in live
    requires HasOwner(live[IdOf(pod)]) && Key(live[IdOf(pod)]) == Key(pod)
    ensures var list := Listed(cache, Key(pod)); var i := Position(list, pod);
      Key(pod) in cache && i < |list| && list[i] == live[IdOf(pod)]
  {
    var list := Listed(cache, Key(pod));
    assert Placed(cache, live[IdOf(pod)], IdOf(pod));
    assert ListFits(Key(pod), list, live);
    hide Represents, ListFits;
    var m :| 0 <= m < |list| && list[m] == live[IdOf(pod)];
    assert SamePod(list[m], pod);
    PositionFits(Key(pod), list, live, pod);
  }

  lemma PositionFits(key: string, list: seq<Pod>, live: Live, pod: Pod)
    requires ListFits(key, list, live) && Position(list, pod) < |list|
    ensures list[Position(list, pod)] == live[IdOf(pod)]
  {
    hide Position;
  }

  /** The live pods change at `id0` only. */
  ghost predicate SameBut(live: Live, live': Live, id0: Id) {
    forall id :: id != id0 ==> (id in live <==> id in live') && (id in live ==> live'[id] == live[id])
  }

  lemma SameButOne(live: Live, id: Id, pod: Pod)
    ensures SameBut(live, live[id := pod], id) && SameBut(live, live - {id}, id)
  {
  }

  lemma OtherList(k: string, list: seq<Pod>, live: Live, live': Live, id0: Id)
    requires ListFits(k, list, live) && SameBut(live, live', id0)
    requires id0 in live ==> HasOwner(live[id0]) && Key(live[id0]) != k
    ensures ListFits(k, list, live')
  {
  }

  /** Replacing one owner's list follows a change of one of its pods. */
  lemma StoreKeeps(cache: Cache, live: Live, key: string, list: seq<Pod>, live': Live, id0: Id)
    requires Represents(cache, live) && SameBut(live, live', id0) && ListFits(key, list, live')
    requires id0 in live ==> HasOwner(live[id0]) && Key(live[id0]) == key
    requires id0 in live' ==> Placed(cache[key := list], live'[id0], id0)
    requires forall p :: p in Listed(cache, key) && IdOf(p) != id0 ==> p in list
    ensures Represents(cache[key := list], live')
  {
    hide ListFits, Key, HasOwner;
    var cache' := cache[key := list];
    forall k | k in cache' ensures ListFits(k, cache'[k], live') {
      if k != key {
        OtherList(k, cache[k], live, live', id0);
      }
    }
    forall id | id in live' ensures Placed(cache', live'[id], id) {
      if id != id0 {
        assert Placed(cache, live[id], id);
      }
    }
  }

  lemma AddKeeps(cache: Cache, live: Live, pod: Pod)
    requires Represents(cache, live) && HasOwner(pod) && IdOf(pod) !in live
    ensures Represents(cache[Key(pod) := Listed(cache, Key(pod)) + [pod]], live[IdOf(pod) := pod])
  {
    var key, live' := Key(pod), live[IdOf(pod) := pod];
    var list := Listed(cache, key);
    assert ListFits(key, list, live);
    AppendFits(key, list, live, pod);
    assert pod in list + [pod];
    SameButOne(live, IdOf(pod), pod);
    hide Represents, ListFits, Key, SameBut;
    StoreKeeps(cache, live, key, list + [pod], live', IdOf(pod));
  }

  lemma AppendFits(key: string, list: seq<Pod>, live: Live, pod: Pod)
    requires ListFits(key, list, live) && HasOwner(pod) && Key(pod) == key && IdOf(pod) !in live
    ensures ListFits(key, list + [pod], live[IdOf(pod) := pod])
  {
  }

  lemma ReplaceFits(key: string, list: seq<Pod>, live: Live, i: nat, pod: Pod)
    requires ListFits(key, list, live) && i < |list| && SamePod(list[i], pod) && HasOwner(pod) && Key(pod) == key
    ensures ListFits(key, list[i := pod], live[IdOf(pod) := pod])
    ensures forall p :: p in list && IdOf(p) != IdOf(pod) ==> p in list[i := pod]
  {
    hide Key, HasOwner;
    forall p | p in list && IdOf(p) != IdOf(pod) ensures p in list[i := pod] {
      var m :| 0 <= m < |list| && list[m] == p;
      assert list[i := pod][m] == p;
    }
  }

  lemma WithoutFits(key: string, list: seq<Pod>, live: Live, i: nat)
    requires ListFits(key, list, live) && i < |list|
    ensures ListFits(key, Without(list, i), live - {IdOf(list[i])})
    ensures forall p :: p in list && IdOf(p) != IdOf(list[i]) ==> p in Without(list, i)
  {
    hide Key, HasOwner;
    var rest := Without(list, i);
    assert forall m :: 0 <= m < |rest| ==> rest[m] == list[if m < i then m else m + 1];
    forall p | p in list && IdOf(p) != IdOf(list[i]) ensures p in rest {
      var m :| 0 <= m < |list| && list[m] == p;
      assert rest[if m < i then m else m - 1] == p;
    }
  }

  lemma UpdateKeeps(cache: Cache, live: Live, pod: Pod)
    requires Represents(cache, live) && HasOwner(pod) && IdOf(pod) in live
    requires HasOwner(live[IdOf(pod)]) && Key(live[IdOf(pod)]) == Key(pod)
    requires Key(pod) in cache && Position(cache[Key(pod)], pod) < |cache[Key(pod)]|
    ensures var list := cache[Key(pod)];
      Represents(cache[Key(pod) := list[Position(list, pod) := pod]], live[IdOf(pod) := pod])
  {
    var key, live' := Key(pod), live[IdOf(pod) := pod];
    var list := cache[key];
    var i := Position(list, pod);
    assert ListFits(key, list, live);
    ReplaceFits(key, list, live, i, pod);
    assert list[i := pod][i] == pod;
    SameButOne(live, IdOf(pod), pod);
    hide Represents, ListFits, Key, Position, SameBut;
    StoreKeeps(cache, live, key, list[i := pod], live', IdOf(pod));
  }

  lemma DeleteKeeps(cache: Cache, live: Live, pod: Pod)
    requires Represents(cache, live) && HasOwner(pod) && IdOf(pod) in live
    requires HasOwner(live[IdOf(pod)]) && Key(live[IdOf(pod)]) == Key(pod)
    requires Key(pod) in cache && Position(cache[Key(pod)], pod) < |cache[Key(pod)]|
    ensures Represents(cache[Key(pod) := Without(cache[Key(pod)], Position(cache[Key(pod)], pod))], live - {IdOf(pod)})
  {
    var key, live' := Key(pod), live - {IdOf(pod)};
    var list := cache[key];
    var i := Position(list, pod);
    assert ListFits(key, list, live);
    WithoutFits(key, list, live, i);
    SameButOne(live, IdOf(pod), pod);
    var rest := Without(list, i);
    hide Represents, ListFits, Key, Position, Without, SameBut, HasOwner;
    StoreKeeps(cache, live, key, rest, live', IdOf(pod));
  }

  // ---- one event ----

  /** Whether storing a list keeps the cache quiet depends on that list only. */
  lemma StoredQuiet(cache: Cache, key: string, list: seq<Pod>)
    requires Quiet(cache)
    ensures Stored(cache, key, list).0 == cache[key := list]
    ensures Stored(cache, key, list).1.None? <==> Quiet(cache[key := list])
  {
    assert key in cache[key := list];
  }

  lemma {:induction false} UnterminatedConcat(a: seq<Pod>, b: seq<Pod>)
    ensures Unterminated(a + b) == Unterminated(a) + Unterminated(b)
  {
    if b == [] {
      assert a + b == a;
    } else {
      assert (a + b)[..|a + b| - 1] == a + b[..|b| - 1];
      UnterminatedConcat(a, b[..|b| - 1]);
    }
  }

  lemma RemovalKeepsFew(list: seq<Pod>, i: nat)
    requires i < |list|
    ensures Unterminated(Without(list, i)) <= Unterminated(list)
  {
    hide Unterminated;
    var a, b, c := list[..i], [list[i]], list[i + 1..];
    assert list == a + b + c;
    UnterminatedConcat(a, c);
    UnterminatedConcat(a, b);
    UnterminatedConcat(a + b, c);
  }

  /** An orderly event fails if and only if it breaks an invariant of the history; a removal never does. */
  lemma EventChecked(cache: Cache, live: Live, e: WatchEvent)
    requires Represents(cache, live) && Quiet(cache) && Orderly(live, e)
    ensures var (cache', failure) := Filtered(cache, e);
      && (failure.Some? <==> Breaks(live, e))
      && (failure.None? ==> Represents(cache', Track(live, e)) && Quiet(cache'))
      && (e.Deleted? ==> failure.None?)
      && (failure.Some? ==> failure.value == if LeavesTerminal(live, e) then LeftTerminalPhase else TwoUnterminated)
  {
    hide Represents, Quiet, TwoOpen, Stored, Unterminated;
    if Watched(e) {
      match e
      case Added(pod) => AddChecked(cache, live, pod);
      case Modified(pod) => UpdateChecked(cache, live, pod);
      case Deleted(pod) => DeleteChecked(cache, live, pod);
    } else {
      QuietMeansNotTwo(cache, live);
    }
  }

  lemma AddChecked(cache: Cache, live: Live, pod: Pod)
    requires Represents(cache, live) && Quiet(cache) && Orderly(live, Added(pod)) && Watched(Added(pod))
    ensures var (cache', failure) := Handled(cache, Added(pod)); var live' := Track(live, Added(pod));
      && (failure.Some? <==> TwoOpen(live')) && Represents(cache', live') && (failure.None? ==> Quiet(cache'))
      && (failure.Some? ==> failure.value == TwoUnterminated)
  {
    hide Represents, Quiet, TwoOpen, Unterminated;
    var key := Key(pod);
    AddKeeps(cache, live, pod);
    StoredQuiet(cache, key, Listed(cache, key) + [pod]);
    QuietMeansNotTwo(cache[key := Listed(cache, key) + [pod]], Track(live, Added(pod)));
  }

  lemma UpdateChecked(cache: Cache, live: Live, pod: Pod)
    requires Represents(cache, live) && Quiet(cache) && Orderly(live, Modified(pod)) && Watched(Modified(pod))
    ensures var (cache', failure) := Handled(cache, Modified(pod)); var live' := Track(live, Modified(pod));
      && (failure.Some? <==> Breaks(live, Modified(pod)))
      && (failure.None? ==> Represents(cache', live') && Quiet(cache'))
      && (failure.Some? ==>
            failure.value == if LeavesTerminal(live, Modified(pod)) then LeftTerminalPhase else TwoUnterminated)
  {
    hide Represents, Quiet, TwoOpen, Unterminated;
    var key := Key(pod);
    FoundInList(cache, live, pod);
    var list := cache[key];
    var i := Position(list, pod);
    UpdateKeeps(cache, live, pod);
    StoredQuiet(cache, key, list[i := pod]);
    QuietMeansNotTwo(cache[key := list[i := pod]], Track(live, Modified(pod)));
  }

  lemma DeleteChecked(cache: Cache, live: Live, pod: Pod)
    requires Represents(cache, live) && Quiet(cache) && Orderly(live, Deleted(pod)) && Watched(Deleted(pod))
    ensures var (cache', failure) := Handled(cache, Deleted(pod)); var live' := Track(live, Deleted(pod));
      failure.None? && !TwoOpen(live') && Represents(cache', live') && Quiet(cache')
  {
    var key := Key(pod);
    FoundInList(cache, live, pod);
    var list := cache[key];
    var i := Position(list, pod);
    RemovalKeepsFew(list, i);
    assert Unterminated(Without(list, i)) <= 1;
    hide Represents, Quiet, TwoOpen, Unterminated;
    DeleteKeeps(cache, live, pod);
    StoredQuiet(cache, key, Without(list, i));
    QuietMeansNotTwo(cache[key := Without(list, i)], Track(live, Deleted(pod)));
  }

  // ---- whole streams ----

  lemma HistoryNext(events: seq<WatchEvent>, i: nat)
    requires i < |events|
    ensures History(events[..i + 1]) == Track(History(events[..i]), events[i])
  {
    assert events[..i + 1][..i] == events[..i];
  }

  /** From event `i` on, given that the first `i` events passed. */
  lemma {:induction false} StreamChecked(events: seq<WatchEvent>, i: nat, cache: Cache)
    requires OrderlyStream(events) && i <= |events|
    requires Represents(cache, History(events[..i])) && Quiet(cache)
    ensures var (c, n, failure) := Checked(cache, events[i..]);
      if failure.None? then
        && i + n == |events| && Represents(c, History(events))
        && forall k :: i <= k < |events| ==> !Breaks(History(events[..k]), events[k])
      else
        && i + n < |events| && Breaks(History(events[..i + n]), events[i + n]) && !events[i + n].Deleted?
        && forall k :: i <= k < i + n ==> !Breaks(History(events[..k]), events[k])
    decreases |events| - i
  {
    hide Represents, Quiet, Breaks, History, Filtered, Orderly;
    if i == |events| {
      assert events[..i] == events;
    } else {
      EventChecked(cache, History(events[..i]), events[i]);
      HistoryNext(events, i);
      assert events[i..][0] == events[i] && events[i..][1..] == events[i + 1..];
      var (next, failure) := Filtered(cache, events[i]);
      if failure.None? {
        StreamChecked(events, i + 1, next);
      }
    }
  }

  /**
   On every orderly stream: the checker fails if and only if some event leaves two unterminated pods for
   one owner or moves a pod out of a terminal phase; it stops at the first such event, never at a removal;
   and if it does not fail, its cache is the history's.
   */
  lemma CheckerDecides(events: seq<WatchEvent>)
    requires OrderlyStream(events)
    ensures var (cache, handled, failure) := Checked(map[], events);
      && (failure.Some? <==> exists i :: 0 <= i < |events| && Breaks(History(events[..i]), events[i]))
      && (failure.None? ==> handled == |events| && Represents(cache, History(events)))
      && (failure.Some? ==>
            && handled < |events| && Breaks(History(events[..handled]), events[handled]) && !events[handled].Deleted?
            && forall i :: 0 <= i < handled ==> !Breaks(History(events[..i]), events[i]))
  {
    hide Breaks, Orderly;
    assert events[0..] == events && events[..0] == [];
    StreamChecked(events, 0, map[]);
  }

  // ---- owners ----

  ghost predicate PlainNamespaces(live: Live) {
    forall id :: id in live ==> '/' !in live[id].namespace
  }

  ghost predicate OneOwner(live: Live, a: Id, b: Id)
    requires IsOpen(live, a) && IsOpen(live, b)
  {
    live[a].namespace == live[b].namespace && Owner(live[a]) == Owner(live[b])
  }

  /** Two unterminated deployer pods belong to one deployment config of one namespace. */
  ghost predicate TwoOpenOfOneOwner(live: Live) {
    exists a, b :: a != b && IsOpen(live, a) && IsOpen(live, b) && OneOwner(live, a, b)
  }

  ghost predicate BreaksByOwner(live: Live, e: WatchEvent) {
    LeavesTerminal(live, e) || TwoOpenOfOneOwner(Track(live, e))
  }

  /** One cache key is one owner, as no namespace has a slash in its name. */
  lemma OneKeyIsOneOwner(live: Live)
    requires PlainNamespaces(live)
    ensures TwoOpen(live) <==> TwoOpenOfOneOwner(live)
  {
    forall a, b | IsOpen(live, a) && IsOpen(live, b)
      ensures Key(live[a]) == Key(live[b]) <==> OneOwner(live, a, b)
    {
      KeysSeparateOwners(live[a], live[b]);
    }
    hide Key, Owner;
    if TwoOpen(live) {
      var a, b :| a != b && IsOpen(live, a) && IsOpen(live, b) && Key(live[a]) == Key(live[b]);
      assert OneOwner(live, a, b);
    }
    if TwoOpenOfOneOwner(live) {
      var a, b :| a != b && IsOpen(live, a) && IsOpen(live, b) && OneOwner(live, a, b);
      assert Key(live[a]) == Key(live[b]);
    }
  }

  predicate PlainEvents(events: seq<WatchEvent>) {
    forall i :: 0 <= i < |events| && !events[i].Unexpected? ==> '/' !in events[i].pod.namespace
  }

  lemma {:induction false} HistoryIsPlain(events: seq<WatchEvent>)
    requires PlainEvents(events)
    ensures PlainNamespaces(History(events))
  {
    if events != [] {
      HistoryIsPlain(events[..|events| - 1]);
    }
  }

  lemma SameBreak(events: seq<WatchEvent>, i: nat)
    requires i < |events| && PlainEvents(events)
    ensures Breaks(History(events[..i]), events[i]) <==> BreaksByOwner(History(events[..i]), events[i])
  {
    hide History, Track, TwoOpen, TwoOpenOfOneOwner, PlainNamespaces;
    HistoryNext(events, i);
    HistoryIsPlain(events[..i + 1]);
    OneKeyIsOneOwner(History(events[..i + 1]));
  }

  /** The checker fails exactly if a pod leaves a terminal phase or one owner has two unterminated pods. */
  lemma CheckerDecidesByOwner(events: seq<WatchEvent>)
    requires OrderlyStream(events) && PlainEvents(events)
    ensures Checked(map[], events).2.Some?
      <==> exists i :: 0 <= i < |events| && BreaksByOwner(History(events[..i]), events[i])
  {
    CheckerDecides(events);
    hide History, Checked, OrderlyStream, PlainEvents, Breaks, BreaksByOwner, Represents;
    forall i | 0 <= i < |events|
      ensures Breaks(History(events[..i]), events[i]) <==> BreaksByOwner(History(events[..i]), events[i])
    {
      SameBreak(events, i);
    }
  }
}
