/** Gate maps: what a push writes is what a pull reads, and what is reported as changed is what changed. */
module SpoolGates {
  import opened SpoolState

  // -------------------------------------------------------------------------------------------- push and pull

  /** Gates and spools are distinct; a gate without a spool has -1. */
  predicate GateMap(gates: seq<GateSpool>) {
    && (forall k | 0 <= k < |gates| :: gates[k].gate >= 0 && (gates[k].spool > 0 || gates[k].spool == -1))
    && (forall j, k | 0 <= j < k < |gates| :: gates[j].gate != gates[k].gate)
    && (forall j, k | 0 <= j < k < |gates| :: gates[j].spool == gates[k].spool ==> gates[k].spool == -1)
  }

  predicate AllKnown(gates: seq<GateSpool>, db: map<SpoolId, Spool>) {
    forall k | 0 <= k < |gates| && gates[k].spool > 0 :: gates[k].spool in db
  }

  /** A possible answer to a pull: any spool on each gate, -1 where there is none. */
  predicate PullReturns(cache: map<SpoolId, Entry>, host: string, gateCount: nat, gates: seq<GateSpool>) {
    && |gates| == gateCount
    && forall g | 0 <= g < gateCount ::
         && gates[g].gate == g
         && (if FindAll(cache, host, Some(g)) == {} then gates[g].spool == -1
             else gates[g].spool >= 0 && gates[g].spool in FindAll(cache, host, Some(g)))
  }

  lemma {:induction false} GateForNamed(gates: seq<GateSpool>, k: nat)
    requires GateMap(gates) && k < |gates| && gates[k].spool > 0
    ensures GateFor(gates, gates[k].spool) == Some(gates[k].gate)
  {
    if k < |gates| - 1 {
      GateForNamed(gates[..|gates| - 1], k);
    }
  }

  lemma {:induction false} GateForUnnamed(gates: seq<GateSpool>, id: SpoolId)
    requires !Names(gates, id)
    ensures GateFor(gates, id).None?
  {
    if gates != [] {
      var front := gates[..|gates| - 1];
      assert gates[|gates| - 1].spool != id;
      assert forall k | 0 <= k < |front| :: front[k] == gates[k];
      GateForUnnamed(front, id);
    }
  }

  /** The spool is taken off by a push: it is on a pushed gate or, if all gates are pushed, on this printer. */
  predicate TakenOff(e: Entry, host: string, gateCount: nat, gates: seq<GateSpool>, id: SpoolId) {
    && e.printer == host
    && ((exists k | 0 <= k < |gates| :: gates[k].gate == e.gate) || (|gates| == gateCount && !Names(gates, id)))
  }

  lemma NamedUpdate(cache: map<SpoolId, Entry>, host: string, gateCount: nat, gates: seq<GateSpool>, k: nat)
    requires GateMap(gates) && k < |gates| && gates[k].spool > 0
    ensures
      var updates := PushUpdates(cache, host, gateCount, gates);
      gates[k].spool in updates && updates[gates[k].spool] == Place(host, gates[k].gate)
  {
    GateForNamed(gates, k);
  }

  lemma UnnamedUpdate(cache: map<SpoolId, Entry>, host: string, gateCount: nat, gates: seq<GateSpool>, id: SpoolId)
    requires !(Names(gates, id) && id > 0)
    ensures
      var updates := PushUpdates(cache, host, gateCount, gates);
      && (id in updates <==> id in cache && TakenOff(cache[id], host, gateCount, gates, id))
      && (id in updates ==> updates[id] == NOWHERE)
  {
    if id == 0 {
      ZeroHasNoGate(gates);
    } else {
      GateForUnnamed(gates, id);
    }
  }

  lemma PatchedEntry(s: State, updates: map<SpoolId, Place>, id: SpoolId)
    requires Mirrors(s)
    ensures
      var after := Patched(s, updates, {}).cache;
      && (id in updates && id in s.db ==>
            id in after && after[id] == Entry(updates[id].printer, updates[id].gate, Cached(s.cache, id).uids))
      && (id !in updates ==> (id in after <==> id in s.cache) && (id in after ==> after[id] == s.cache[id]))
  {
  }

  /** Where a push with no failing request leaves each spool of the cache: a named one on its gate, one on a pushed
      gate or (if all gates are pushed) on this printer nowhere, any other where it was. */
  lemma PushPlaces(s: State, host: string, gateCount: nat, gates: seq<GateSpool>, id: SpoolId)
    requires Mirrors(s) && GateMap(gates) && AllKnown(gates, s.db)
    ensures
      var after := Patched(s, PushUpdates(s.cache, host, gateCount, gates), {}).cache;
      && (forall k | 0 <= k < |gates| && gates[k].spool == id && id > 0 ::
            id in after && after[id].printer == host && after[id].gate == gates[k].gate)
      && (!(Names(gates, id) && id > 0) ==>
            && (id in after <==> id in s.cache)
            && (id in after ==>
                  after[id] == if TakenOff(s.cache[id], host, gateCount, gates, id)
                               then s.cache[id].(printer := "", gate := -1) else s.cache[id]))
  {
    PatchedEntry(s, PushUpdates(s.cache, host, gateCount, gates), id);
    if Names(gates, id) && id > 0 {
      forall k | 0 <= k < |gates| && gates[k].spool == id
        ensures
          var after := Patched(s, PushUpdates(s.cache, host, gateCount, gates), {}).cache;
          id in after && after[id].printer == host && after[id].gate == gates[k].gate
      {
        NamedUpdate(s.cache, host, gateCount, gates, k);
      }
    } else {
      UnnamedUpdate(s.cache, host, gateCount, gates, id);
    }
  }

  lemma {:induction false} ZeroHasNoGate(gates: seq<GateSpool>)
    ensures GateFor(gates, 0).None?
  {
    if gates != [] {
      ZeroHasNoGate(gates[..|gates| - 1]);
    }
  }

  /** After a push only the pushed spool is on a pushed gate. */
  lemma OnlyPushedThere(s: State, host: string, gateCount: nat, gates: seq<GateSpool>, k: nat, id: SpoolId)
    requires host != "" && Mirrors(s) && GateMap(gates) && AllKnown(gates, s.db) && k < |gates|
    requires id in FindAll(Patched(s, PushUpdates(s.cache, host, gateCount, gates), {}).cache, host,
                           Some(gates[k].gate))
    ensures id == gates[k].spool
  {
    PushPlaces(s, host, gateCount, gates, id);
    if Names(gates, id) && id > 0 {
      var j :| 0 <= j < |gates| && gates[j].spool == id;
    }
  }

  /** After a push a pushed spool is on its gate. */
  lemma PushedIsThere(s: State, host: string, gateCount: nat, gates: seq<GateSpool>, k: nat)
    requires Mirrors(s) && GateMap(gates) && AllKnown(gates, s.db) && k < |gates| && gates[k].spool > 0
    ensures gates[k].spool in FindAll(Patched(s, PushUpdates(s.cache, host, gateCount, gates), {}).cache, host,
                                      Some(gates[k].gate))
  {
    PushPlaces(s, host, gateCount, gates, gates[k].spool);
  }

  /** Pushing a gate map and then pulling reads what was pushed at every pushed gate. */
  lemma PushThenPull(s: State, host: string, gateCount: nat, gates: seq<GateSpool>, pulled: seq<GateSpool>, k: nat)
    requires host != "" && Mirrors(s) && GateMap(gates) && AllKnown(gates, s.db) && gates != []
    requires PullReturns(Step(s, host, gateCount, Push(gates, {})).cache, host, gateCount, pulled)
    requires k < |gates| && gates[k].gate < gateCount
    ensures pulled[gates[k].gate] == gates[k]
  {
    var after := Patched(s, PushUpdates(s.cache, host, gateCount, gates), {});
    var there := FindAll(after.cache, host, Some(gates[k].gate));
    forall id | id in there ensures id == gates[k].spool {
      OnlyPushedThere(s, host, gateCount, gates, k, id);
    }
    if gates[k].spool > 0 {
      PushedIsThere(s, host, gateCount, gates, k);
    }
  }

  /** Pushing all gates and then pulling returns the same map. */
  lemma FullPushThenPull(s: State, host: string, gateCount: nat, gates: seq<GateSpool>, pulled: seq<GateSpool>)
    requires host != "" && Mirrors(s) && GateMap(gates) && AllKnown(gates, s.db) && gates != []
    requires |gates| == gateCount && forall k | 0 <= k < |gates| :: gates[k].gate < gateCount
    requires PullReturns(Step(s, host, gateCount, Push(gates, {})).cache, host, gateCount, pulled)
    ensures multiset(pulled) == multiset(gates)
  {
    forall k | 0 <= k < |gates| ensures pulled[gates[k].gate] == gates[k] {
      PushThenPull(s, host, gateCount, gates, pulled, k);
    }
    SamePermuted(gates, pulled);
  }

  /** A list that holds every element of another one at some index of its own, each at a different one, is a
      permutation of it. */
  lemma {:induction false} SamePermuted(gates: seq<GateSpool>, pulled: seq<GateSpool>)
    requires |gates| == |pulled|
    requires forall k | 0 <= k < |gates| :: 0 <= gates[k].gate < |gates| && pulled[gates[k].gate] == gates[k]
    requires forall j, k | 0 <= j < k < |gates| :: gates[j].gate != gates[k].gate
    ensures multiset(pulled) == multiset(gates)
  {
    IncludedPermuted(gates, pulled, |gates|);
    assert gates[..|gates|] == gates;
    SubmultisetOfSameSize(multiset(gates), multiset(pulled));
  }

  lemma SubmultisetOfSameSize(a: multiset<GateSpool>, b: multiset<GateSpool>)
    requires a <= b && |a| == |b|
    ensures a == b
  {
    assert b == a + (b - a);
    assert |b - a| == 0;
  }

  lemma {:induction false} IncludedPermuted(gates: seq<GateSpool>, pulled: seq<GateSpool>, n: nat)
    requires n <= |gates| == |pulled|
    requires forall k | 0 <= k < |gates| :: 0 <= gates[k].gate < |gates| && pulled[gates[k].gate] == gates[k]
    requires forall j, k | 0 <= j < k < |gates| :: gates[j].gate != gates[k].gate
    ensures multiset(gates[..n]) <= multiset(pulled)
  {
    forall x ensures multiset(gates[..n])[x] <= multiset(pulled)[x] {
      if x in gates[..n] {
        var k :| 0 <= k < n && gates[..n][k] == x;
        DistinctOnce(gates[..n], x);
        assert pulled[gates[k].gate] == x;
        assert x in multiset(pulled);
      }
    }
  }

  lemma {:induction false} DistinctOnce(gates: seq<GateSpool>, x: GateSpool)
    requires forall j, k | 0 <= j < k < |gates| :: gates[j].gate != gates[k].gate
    ensures multiset(gates)[x] <= 1
  {
    if gates != [] {
      var front := gates[..|gates| - 1];
      assert gates == front + [gates[|gates| - 1]];
      DistinctOnce(front, x);
      if gates[|gates| - 1] == x {
        assert x !in front;
      }
    }
  }

  // ------------------------------------------------------------------------------- changes that are reported

  /** At most one spool on each gate of this printer. */
  predicate OnePerGate(cache: map<SpoolId, Entry>, host: string, gateCount: nat) {
    forall a, b | a in cache && b in cache && a != b && cache[a].printer == host == cache[b].printer ::
      0 <= cache[a].gate < gateCount ==> cache[a].gate != cache[b].gate
  }

  ghost function SpoolAt(cache: map<SpoolId, Entry>, host: string, g: int): int {
    Chosen(FindAll(cache, host, Some(g)))
  }

  ghost function Chosen(there: set<SpoolId>): int {
    if there == {} then -1 else var id :| id in there; id
  }

  /** What `set_spool_gate` reports: freed gates as -1 and the gate that was set. */
  function SetChanges(s: State, host: string, gateCount: nat, gate: int, id: SpoolId, failing: set<SpoolId>)
    : map<int, int>
  {
    var e := Cached(s.cache, id);
    var freed := if exists o | o in FindAll(s.cache, host, Some(gate)) :: o != id && Accepted(s.db, o, failing)
                 then {gate} else {};
    var left := if Accepted(s.db, id, failing) && e.printer == host && 0 <= gate < gateCount then {e.gate} else {};
    var cleared := map g | g in freed + left && 0 <= g < gateCount :: -1;
    if Accepted(s.db, id, failing) && 0 <= gate < gateCount then cleared[gate := id] else cleared
  }

  /** What the commands that only take spools off report: the gates of this printer that they were on. */
  function TakenOffChanges(s: State, host: string, gateCount: nat, ids: set<SpoolId>, failing: set<SpoolId>)
    : map<int, int>
  {
    var gates := set id | id in ids && id in s.cache && Accepted(s.db, id, failing) && s.cache[id].printer == host
                          :: s.cache[id].gate;
    map g | g in gates && 0 <= g < gateCount :: -1
  }

  /** A spool that stays on the gate because its request failed while another one is put there. */
  predicate Clashes(s: State, host: string, gate: int, id: SpoolId, failing: set<SpoolId>) {
    Accepted(s.db, id, failing)
    && exists o | o in FindAll(s.cache, host, Some(gate)) :: o != id && !Accepted(s.db, o, failing)
  }

  /** The cache after a set, spool by spool. */
  lemma SetEntry(s: State, host: string, gate: int, id: SpoolId, failing: set<SpoolId>, x: SpoolId)
    requires Mirrors(s)
    ensures
      var after := Patched(s, SetUpdates(s.cache, host, gate, id), failing).cache;
      if x == id && Accepted(s.db, id, failing) then
        x in after && after[x].printer == host && after[x].gate == gate
      else if x != id && x in FindAll(s.cache, host, Some(gate)) && Accepted(s.db, x, failing) then
        x in after && after[x].printer == "" && after[x].gate == -1
      else (x in after <==> x in s.cache) && (x in after ==> after[x] == s.cache[x])
  {
  }

  /** Setting a spool keeps at most one spool a gate exactly when the old spool of the gate could be taken off. */
  lemma SetKeepsOnePerGate(s: State, host: string, gateCount: nat, gate: int, id: SpoolId, failing: set<SpoolId>)
    requires host != "" && Mirrors(s) && 0 <= gate < gateCount && OnePerGate(s.cache, host, gateCount)
    ensures OnePerGate(Patched(s, SetUpdates(s.cache, host, gate, id), failing).cache, host, gateCount)
            <==> !Clashes(s, host, gate, id, failing)
  {
    var after := Patched(s, SetUpdates(s.cache, host, gate, id), failing).cache;
    if Clashes(s, host, gate, id, failing) {
      var o :| o in FindAll(s.cache, host, Some(gate)) && o != id && !Accepted(s.db, o, failing);
      SetEntry(s, host, gate, id, failing, o);
      SetEntry(s, host, gate, id, failing, id);
    } else {
      forall a, b | a in after && b in after && a != b && after[a].printer == host == after[b].printer
                    && 0 <= after[a].gate < gateCount
        ensures after[a].gate != after[b].gate
      {
        SetEntry(s, host, gate, id, failing, a);
        SetEntry(s, host, gate, id, failing, b);
      }
    }
  }

  function AcceptedOf(ids: set<SpoolId>, db: map<SpoolId, Spool>, failing: set<SpoolId>): set<SpoolId> {
    set x | x in ids && Accepted(db, x, failing) :: x
  }

  /** The spools on a gate after a set. */
  lemma SetFinds(s: State, host: string, gate: int, id: SpoolId, failing: set<SpoolId>, g: int)
    requires host != "" && Mirrors(s)
    ensures
      var after := Patched(s, SetUpdates(s.cache, host, gate, id), failing).cache;
      var before := FindAll(s.cache, host, Some(g));
      var accepted := AcceptedOf(before, s.db, failing);
      FindAll(after, host, Some(g)) ==
        (before - accepted)
        + (if g != gate then accepted - {id} else {})
        + if g == gate && Accepted(s.db, id, failing) then {id} else {}
  {
    var after := Patched(s, SetUpdates(s.cache, host, gate, id), failing).cache;
    forall x
      ensures x in FindAll(after, host, Some(g)) <==>
              || (x in FindAll(s.cache, host, Some(g)) && !Accepted(s.db, x, failing))
              || (g != gate && x in FindAll(s.cache, host, Some(g)) && Accepted(s.db, x, failing) && x != id)
              || (g == gate && Accepted(s.db, id, failing) && x == id)
    {
      SetEntry(s, host, gate, id, failing, x);
    }
  }

  lemma AtMostOneAt(cache: map<SpoolId, Entry>, host: string, gateCount: nat, g: int)
    requires OnePerGate(cache, host, gateCount) && 0 <= g < gateCount
    ensures |FindAll(cache, host, Some(g))| <= 1
  {
    if o :| o in FindAll(cache, host, Some(g)) {
      AloneAt(cache, host, gateCount, o);
    }
  }

  lemma AloneAt(cache: map<SpoolId, Entry>, host: string, gateCount: nat, id: SpoolId)
    requires OnePerGate(cache, host, gateCount) && id in cache && cache[id].printer == host
    requires 0 <= cache[id].gate < gateCount
    ensures FindAll(cache, host, Some(cache[id].gate)) == {id} && SpoolAt(cache, host, cache[id].gate) == id
  {
    forall x | x in FindAll(cache, host, Some(cache[id].gate)) ensures x == id {
    }
  }

  /** The reported changes turn the old gate map into the new one, at every gate. */
  lemma SetChangesRead(s: State, host: string, gateCount: nat, gate: int, id: SpoolId, failing: set<SpoolId>, g: int)
    requires host != "" && Mirrors(s) && 0 <= gate < gateCount && OnePerGate(s.cache, host, gateCount)
    requires !Clashes(s, host, gate, id, failing) && 0 <= g < gateCount
    ensures
      var changes := SetChanges(s, host, gateCount, gate, id, failing);
      var after := Patched(s, SetUpdates(s.cache, host, gate, id), failing).cache;
      SpoolAt(after, host, g) == if g in changes then changes[g] else SpoolAt(s.cache, host, g)
  {
    var before := FindAll(s.cache, host, Some(g));
    AtMostOneAt(s.cache, host, gateCount, g);
    SetFinds(s, host, gate, id, failing, g);
    if g == gate {
      SetChangesHere(s, host, gateCount, gate, id, failing);
      ChosenHere(before, AcceptedOf(before, s.db, failing), id, Accepted(s.db, id, failing));
    } else {
      SetChangesElsewhere(s, host, gateCount, gate, id, failing, g);
      ChosenElsewhere(before, AcceptedOf(before, s.db, failing), id);
    }
  }

  lemma SetChangesHere(s: State, host: string, gateCount: nat, gate: int, id: SpoolId, failing: set<SpoolId>)
    requires 0 <= gate < gateCount
    ensures
      var changes := SetChanges(s, host, gateCount, gate, id, failing);
      if Accepted(s.db, id, failing) then gate in changes && changes[gate] == id
      else
        && (gate in changes <==>
              exists o | o in FindAll(s.cache, host, Some(gate)) :: o != id && Accepted(s.db, o, failing))
        && (gate in changes ==> changes[gate] == -1)
  {
  }

  lemma SetChangesElsewhere(s: State, host: string, gateCount: nat, gate: int, id: SpoolId, failing: set<SpoolId>,
                            g: int)
    requires 0 <= gate < gateCount && 0 <= g < gateCount && g != gate && host != ""
    ensures
      var changes := SetChanges(s, host, gateCount, gate, id, failing);
      && (g in changes <==> Accepted(s.db, id, failing) && id in FindAll(s.cache, host, Some(g)))
      && (g in changes ==> changes[g] == -1)
  {
  }

  /** The spool on the gate that is set. */
  lemma ChosenHere(before: set<SpoolId>, accepted: set<SpoolId>, id: SpoolId, placed: bool)
    requires |before| <= 1 && accepted <= before
    requires placed ==> id !in before - accepted && before - accepted <= {id}
    requires !placed ==> id !in accepted
    ensures
      var after := (before - accepted) + {} + if placed then {id} else {};
      Chosen(after) == if placed then id else if exists o | o in accepted :: o != id then -1 else Chosen(before)
  {
    if placed {
      assert (before - accepted) + {} + {id} == {id};
    } else if o :| o in before {
      AtMostOneMember(before, o);
      assert (before - accepted) + {} + {} == if o in accepted then {} else before;
    }
  }

  /** The spool on any other gate. */
  lemma ChosenElsewhere(before: set<SpoolId>, accepted: set<SpoolId>, id: SpoolId)
    requires |before| <= 1 && accepted <= before
    ensures Chosen((before - accepted) + (accepted - {id}) + {}) == if id in accepted then -1 else Chosen(before)
  {
    if id in accepted {
      AtMostOneMember(before, id);
      assert (before - accepted) + (accepted - {id}) + {} == {};
    } else {
      assert (before - accepted) + (accepted - {id}) + {} == before;
    }
  }

  lemma AtMostOneMember(ids: set<SpoolId>, id: SpoolId)
    requires |ids| <= 1 && id in ids
    ensures ids == {id}
  {
    assert |ids - {id}| == |ids| - 1;
  }

  /** The reported changes are exactly the difference of the two gate maps unless the spool was on its gate already;
      then the gate is reported all the same. */
  lemma SetChangesAreDifference(s: State, host: string, gateCount: nat, gate: int, id: SpoolId, failing: set<SpoolId>)
    requires host != "" && Mirrors(s) && 0 <= gate < gateCount && OnePerGate(s.cache, host, gateCount)
    requires !Clashes(s, host, gate, id, failing)
    ensures
      var changes := SetChanges(s, host, gateCount, gate, id, failing);
      var after := Patched(s, SetUpdates(s.cache, host, gate, id), failing).cache;
      (forall g | 0 <= g < gateCount ::
         g in changes <==> SpoolAt(s.cache, host, g) != SpoolAt(after, host, g))
      <==> !(Accepted(s.db, id, failing) && SpoolAt(s.cache, host, gate) == id)
  {
    var changes := SetChanges(s, host, gateCount, gate, id, failing);
    var after := Patched(s, SetUpdates(s.cache, host, gate, id), failing).cache;
    forall g | 0 <= g < gateCount
      ensures SpoolAt(after, host, g) == if g in changes then changes[g] else SpoolAt(s.cache, host, g)
    {
      SetChangesRead(s, host, gateCount, gate, id, failing, g);
    }
    forall g | g in changes && changes[g] == -1 ensures SpoolAt(s.cache, host, g) != -1 {
      ClearedWasTaken(s, host, gateCount, gate, id, failing, g);
    }
    if Accepted(s.db, id, failing) {
      assert gate in changes && changes[gate] == id;
    }
  }

  /** A spool that is set on the gate it is on: nothing changes, and the gate is reported. */
  lemma SetAgainReported(s: State, host: string, gateCount: nat, gate: int, id: SpoolId)
    requires host != "" && Mirrors(s) && 0 <= gate < gateCount && OnePerGate(s.cache, host, gateCount)
    requires id in s.cache && s.cache[id].printer == host && s.cache[id].gate == gate
    ensures SetChanges(s, host, gateCount, gate, id, {}) == map[gate := id]
    ensures Patched(s, SetUpdates(s.cache, host, gate, id), {}).cache == s.cache
  {
    AloneAt(s.cache, host, gateCount, id);
    var changes := SetChanges(s, host, gateCount, gate, id, {});
    assert changes.Keys == {gate};
    assert SetUpdates(s.cache, host, gate, id).Keys == {id};
  }

  const ONE_SPOOL := State(map[1 := Spool("printer", 0, [])], map[1 := Entry("printer", 0, None)], map[], {})

  /** Such a spool, in the smallest machine. */
  lemma SetAgainHere()
    ensures Mirrors(ONE_SPOOL) && OnePerGate(ONE_SPOOL.cache, "printer", 1)
    ensures SetChanges(ONE_SPOOL, "printer", 1, 0, 1, {}) == map[0 := 1]
    ensures Patched(ONE_SPOOL, SetUpdates(ONE_SPOOL.cache, "printer", 0, 1), {}).cache == ONE_SPOOL.cache
  {
    assert ONE_SPOOL.cache.Keys == {1};
    SetAgainReported(ONE_SPOOL, "printer", 1, 0, 1);
  }

  lemma ClearedWasTaken(s: State, host: string, gateCount: nat, gate: int, id: SpoolId, failing: set<SpoolId>, g: int)
    requires Mirrors(s) && host != ""
    requires g in SetChanges(s, host, gateCount, gate, id, failing)
    requires SetChanges(s, host, gateCount, gate, id, failing)[g] == -1
    ensures SpoolAt(s.cache, host, g) != -1
  {
    if o :| o in FindAll(s.cache, host, Some(gate)) && o != id && Accepted(s.db, o, failing) && g == gate {
    } else {
      assert id in FindAll(s.cache, host, Some(g));
    }
  }

  // ------------------------------------------------------------------------------------------ taking spools off

  lemma TakenOffEntry(s: State, ids: set<SpoolId>, failing: set<SpoolId>, x: SpoolId)
    requires Mirrors(s)
    ensures
      var after := Patched(s, Nowhere(ids), failing).cache;
      if x in ids && Accepted(s.db, x, failing) then x in after && after[x].printer == "" && after[x].gate == -1
      else (x in after <==> x in s.cache) && (x in after ==> after[x] == s.cache[x])
  {
  }

  /** Taking spools off, with any requests failing: what is reported is exactly the difference of the gate maps. */
  lemma TakenOffChangesAreDifference(s: State, host: string, gateCount: nat, ids: set<SpoolId>, failing: set<SpoolId>,
                                     g: int)
    requires host != "" && Mirrors(s) && OnePerGate(s.cache, host, gateCount) && 0 <= g < gateCount
    ensures
      var changes := TakenOffChanges(s, host, gateCount, ids, failing);
      var after := Patched(s, Nowhere(ids), failing).cache;
      && (g in changes <==> SpoolAt(s.cache, host, g) != SpoolAt(after, host, g))
      && (g in changes ==> SpoolAt(after, host, g) == changes[g] == -1)
  {
    var changes := TakenOffChanges(s, host, gateCount, ids, failing);
    var after := Patched(s, Nowhere(ids), failing).cache;
    var before := FindAll(s.cache, host, Some(g));
    forall x
      ensures x in FindAll(after, host, Some(g)) <==> x in before && !(x in ids && Accepted(s.db, x, failing))
    {
      TakenOffEntry(s, ids, failing, x);
    }
    if before != {} {
      var o :| o in before;
      AloneAt(s.cache, host, gateCount, o);
      assert before == {o};
      assert o in ids && Accepted(s.db, o, failing) ==> s.cache[o].gate in changes;
      if g in changes {
        var y :| y in ids && y in s.cache && Accepted(s.db, y, failing) && s.cache[y].printer == host
                 && s.cache[y].gate == g;
        assert y in before;
      }
      if !(o in ids && Accepted(s.db, o, failing)) {
        assert FindAll(after, host, Some(g)) == before;
      }
    } else {
      assert FindAll(after, host, Some(g)) == {};
    }
  }

  /** The spool is known to be on the printer, on one of its gates if one is named. */
  predicate KnownAt(cache: map<SpoolId, Entry>, x: SpoolId, printer: string, gate: Option<int>) {
    x in cache && cache[x].printer == printer && (gate.Some? ==> cache[x].gate == gate.value)
  }

  /** Where a spool goes when it is taken off, unless its request fails. */
  function OffUnless(spool: Spool, taken: bool): Spool {
    if taken then Spool("", -1, spool.uids) else spool
  }

  /** Where clearing, unsetting and setting leave every record of the database. Clearing takes off the spools known on
      the printer, this one if none is named. Unsetting takes off the spools known on a gate of this printer or the
      spool that is named, and does nothing when both are named or neither is. Setting puts the spool on its gate and
      takes off what is known there; it does nothing without a gate of this printer, and a printer without gates has one
      place. A spool whose request fails stays. */
  lemma PlacesAfter(s: State, host: string, gateCount: nat, command: Command, x: SpoolId)
    requires x in s.db
    ensures
      var after := Step(s, host, gateCount, command).db;
      match command
      case Clear(printer, failing) =>
        var name := if printer == "" then host else printer;
        x in after && after[x] == OffUnless(s.db[x], KnownAt(s.cache, x, name, None) && x !in failing)
      case Unset(gate, target, failing) =>
        var taken := if gate.Some? && target.None? then KnownAt(s.cache, x, host, gate)
                     else gate.None? && target == Some(x);
        x in after && after[x] == OffUnless(s.db[x], taken && x !in failing)
      case Set(id, gate, failing) =>
        var g := if gate.Some? then gate.value else 0;
        var fits := if gate.Some? then 0 <= g < gateCount else gateCount == 0;
        && x in after
        && after[x] == if !fits || x in failing then s.db[x]
                       else if x == id then Spool(host, g, s.db[x].uids)
                       else OffUnless(s.db[x], KnownAt(s.cache, x, host, Some(g)))
      case _ => true
  {
  }
}
