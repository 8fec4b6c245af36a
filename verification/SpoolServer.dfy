/** The server component: caches that are updated one request at a time. Every method is proved to do to the caches
    and to the database what the command does to the state they stand for. */
module SpoolServer {
  import opened SpoolState
  import opened SpoolGates
  import T = SpoolTags

  /** The database behind the HTTP interface. */
  class Spoolman {
    var spools: map<SpoolId, Spool>

    constructor (spools: map<SpoolId, Spool>)
      ensures this.spools == spools
    {
      this.spools := spools;
    }

    method PatchPlace(id: SpoolId, place: Place, fails: bool) returns (ok: bool)
      modifies this
      ensures ok <==> id in old(spools) && !fails
      ensures spools == if ok then old(spools)[id := Spool(place.printer, place.gate, old(spools)[id].uids)]
                        else old(spools)
    {
      ok := id in spools && !fails;
      if ok {
        spools := spools[id := Spool(place.printer, place.gate, spools[id].uids)];
      }
    }

    method PatchUids(id: SpoolId, uids: seq<Uid>, fails: bool) returns (ok: bool)
      modifies this
      ensures ok <==> id in old(spools) && !fails
      ensures spools == if ok then old(spools)[id := old(spools)[id].(uids := uids)] else old(spools)
    {
      ok := id in spools && !fails;
      if ok {
        spools := spools[id := spools[id].(uids := uids)];
      }
    }
  }

  class MmuServer {
    const spoolman: Spoolman
    const host: string
    const gateCount: nat
    var spoolLocation: map<SpoolId, Entry>
    var uidToSpoolId: map<Uid, SpoolId>
    var uidMissCache: set<Uid>

    constructor (spoolman: Spoolman, host: string, gateCount: nat)
      ensures this.spoolman == spoolman && this.host == host && this.gateCount == gateCount
      ensures View() == State(spoolman.spools, map[], map[], {})
    {
      this.spoolman := spoolman;
      this.host := host;
      this.gateCount := gateCount;
      spoolLocation, uidToSpoolId, uidMissCache := map[], map[], {};
    }

    ghost function View(): State
      reads this, spoolman
    {
      State(spoolman.spools, spoolLocation, uidToSpoolId, uidMissCache)
    }

    // ------------------------------------------------------------------------------------ batches of requests

    /** Sends one request for each spool and tells which went through. */
    method SendAll(updates: map<SpoolId, Place>, failing: set<SpoolId>) returns (accepted: set<SpoolId>)
      modifies spoolman
      ensures accepted == AcceptedOf(updates.Keys, old(spoolman.spools), failing)
      ensures spoolman.spools == PatchedDb(old(spoolman.spools), updates, failing)
    {
      accepted := {};
      var todo := updates.Keys;
      ghost var db, done := spoolman.spools, {};
      NoneSent(db, updates, failing);
      while todo != {}
        invariant done + todo == updates.Keys && done !! todo
        invariant accepted == AcceptedOf(done, db, failing)
        invariant spoolman.spools == PatchedDb(db, Part(updates, done), failing)
        decreases |todo|
      {
        var id :| id in todo;
        accepted := SendOne(id, updates, failing, accepted, done, db);
        todo, done := todo - {id}, done + {id};
      }
      PartAll(updates, done);
    }

    /** Sends one more request: `done` are the spools dealt with before. */
    method SendOne(id: SpoolId, updates: map<SpoolId, Place>, failing: set<SpoolId>, accepted: set<SpoolId>,
                   ghost done: set<SpoolId>, ghost db: map<SpoolId, Spool>)
      returns (more: set<SpoolId>)
      requires id in updates && id !in done && accepted == AcceptedOf(done, db, failing)
      requires spoolman.spools == PatchedDb(db, Part(updates, done), failing)
      modifies spoolman
      ensures more == AcceptedOf(done + {id}, db, failing)
      ensures spoolman.spools == PatchedDb(db, Part(updates, done + {id}), failing)
    {
      OneSent(db, updates, done, id, failing);
      OneAccepted(done, db, failing, id);
      var ok := spoolman.PatchPlace(id, updates[id], id in failing);
      more := if ok then accepted + {id} else accepted;
    }

    /** Caches the new place of a spool, keeping what is known of its tags. */
    method CachePlace(id: SpoolId, place: Place)
      modifies this`spoolLocation
      ensures spoolLocation ==
              old(spoolLocation)[id := Entry(place.printer, place.gate, Cached(old(spoolLocation), id).uids)]
    {
      var e := Cached(spoolLocation, id);
      spoolLocation := spoolLocation[id := Entry(place.printer, place.gate, e.uids)];
    }

    /** Deals with the answer to one request: `done` are the spools dealt with before. */
    method CacheOne(id: SpoolId, updates: map<SpoolId, Place>, ok: bool, ghost before: State, ghost done: set<SpoolId>,
                    ghost failing: set<SpoolId>)
      requires id in updates && id !in done && ok == Accepted(before.db, id, failing)
      requires spoolLocation == Recached(before.cache, before.db, Part(updates, done), failing)
      modifies this`spoolLocation
      ensures spoolLocation == Recached(before.cache, before.db, Part(updates, done + {id}), failing)
    {
      RecachedOne(before.cache, before.db, updates, done, id, failing);
      if ok {
        CachePlace(id, updates[id]);
      }
    }

    /** Moves spools, request by request, and caches those that moved. */
    method MoveAll(updates: map<SpoolId, Place>, failing: set<SpoolId>)
      modifies this`spoolLocation, spoolman
      ensures View() == Patched(old(View()), updates, failing)
    {
      ghost var before := View();
      var accepted := SendAll(updates, failing);
      CacheAll(updates, accepted, before, failing);
    }

    method CacheAll(updates: map<SpoolId, Place>, accepted: set<SpoolId>, ghost before: State,
                    ghost failing: set<SpoolId>)
      requires forall id | id in updates :: id in accepted <==> Accepted(before.db, id, failing)
      requires spoolLocation == before.cache
      modifies this`spoolLocation
      ensures spoolLocation == Recached(before.cache, before.db, updates, failing)
    {
      var todo := updates.Keys;
      ghost var done: set<SpoolId> := {};
      NoneRecached(before, updates, failing);
      while todo != {}
        invariant done + todo == updates.Keys && done !! todo
        invariant spoolLocation == Recached(before.cache, before.db, Part(updates, done), failing)
        decreases |todo|
      {
        var id :| id in todo;
        CacheOne(id, updates, id in accepted, before, done, failing);
        todo, done := todo - {id}, done + {id};
      }
      PartAll(updates, done);
    }

    /** Takes spools off their gates, caches those that went through, and reports the gates of this printer that became
        free. */
    method TakeOff(ids: set<SpoolId>, failing: set<SpoolId>) returns (changes: map<int, int>)
      modifies this`spoolLocation, spoolman
      ensures View() == Patched(old(View()), Nowhere(ids), failing)
      ensures changes == TakenOffChanges(old(View()), host, gateCount, ids, failing)
    {
      ghost var before := View();
      var updates := Nowhere(ids);
      var accepted := SendAll(updates, failing);
      changes := CacheTakenOff(ids, updates, accepted, before, failing);
      PartAll(updates, ids);
    }

    method CacheTakenOff(ids: set<SpoolId>, updates: map<SpoolId, Place>, accepted: set<SpoolId>, ghost before: State,
                         ghost failing: set<SpoolId>)
      returns (changes: map<int, int>)
      requires forall id | id in ids :: id in updates && updates[id] == NOWHERE
      requires forall id | id in ids :: id in accepted <==> Accepted(before.db, id, failing)
      requires spoolLocation == before.cache
      modifies this`spoolLocation
      ensures spoolLocation == Recached(before.cache, before.db, Part(updates, ids), failing)
      ensures changes == TakenOffChanges(before, host, gateCount, ids, failing)
    {
      changes := map[];
      var todo := ids;
      ghost var done: set<SpoolId> := {};
      NoneRecached(before, updates, failing);
      while todo != {}
        invariant done + todo == ids && done !! todo
        invariant spoolLocation == Recached(before.cache, before.db, Part(updates, done), failing)
        invariant changes == TakenOffChanges(before, host, gateCount, done, failing)
        decreases |todo|
      {
        var id :| id in todo;
        changes := TakenOffMore(id, updates, id in accepted, changes, before, done, failing);
        CacheOne(id, updates, id in accepted, before, done, failing);
        todo, done := todo - {id}, done + {id};
      }
      assert done == ids;
    }

    method TakenOffMore(id: SpoolId, updates: map<SpoolId, Place>, ok: bool, changes: map<int, int>,
                        ghost before: State, ghost done: set<SpoolId>, ghost failing: set<SpoolId>)
      returns (more: map<int, int>)
      requires id in updates && id !in done && ok == Accepted(before.db, id, failing)
      requires spoolLocation == Recached(before.cache, before.db, Part(updates, done), failing)
      requires changes == TakenOffChanges(before, host, gateCount, done, failing)
      ensures more == TakenOffChanges(before, host, gateCount, done + {id}, failing)
    {
      RecachedOne(before.cache, before.db, updates, done, id, failing);
      TakenOffOne(before, host, gateCount, done, id, failing);
      more := changes;
      if ok {
        var e := Cached(spoolLocation, id);
        if e.printer == host && 0 <= e.gate < gateCount && e.gate !in changes {
          more := changes[e.gate := -1];
        }
      }
    }

    // ------------------------------------------------------------------------------------ rebuilding the cache

    /** Rebuilds the caches from a response and takes off, if asked to, the spools that are assigned inconsistently. */
    method BuildSpoolLocationCache(order: Option<seq<SpoolId>>, fix: bool, failing: set<SpoolId>) returns (ok: bool)
      modifies this`spoolLocation, this`uidToSpoolId, spoolman
      ensures View() == Step(old(View()), host, gateCount, Refresh(order, fix, failing))
      ensures !ok ==> View() == old(View())
    {
      if order.None? || exists i | 0 <= i < |order.value| :: order.value[i] !in spoolman.spools {
        return false;
      }
      var ids := order.value;
      var owners := ReadOwners(ids);
      var toFix := FindToFix(ids);
      spoolLocation := map id | id in ids :: EntryOf(spoolman.spools[id]);
      uidToSpoolId := owners;
      if fix {
        MoveAll(Nowhere(toFix), failing);
      }
      ok := true;
    }

    method ReadOwners(ids: seq<SpoolId>) returns (owners: map<Uid, SpoolId>)
      requires forall i | 0 <= i < |ids| :: ids[i] in spoolman.spools
      ensures owners == OwnersOf(spoolman.spools, ids)
    {
      owners := map[];
      for k := 0 to |ids|
        invariant owners == OwnersOf(spoolman.spools, ids[..k])
      {
        assert ids[..k + 1][..k] == ids[..k];
        owners := WithTags(owners, spoolman.spools[ids[k]].uids, ids[k]);
      }
      assert ids[..|ids|] == ids;
    }

    /** Groups the spools by gate; all but the first of each group, and the half assigned ones, are to be fixed. */
    method FindToFix(ids: seq<SpoolId>) returns (toFix: set<SpoolId>)
      requires forall i | 0 <= i < |ids| :: ids[i] in spoolman.spools
      ensures toFix == ToFix(spoolman.spools, ids)
    {
      var db := spoolman.spools;
      var assignments: map<Place, seq<SpoolId>> := map[];
      toFix := {};
      for k := 0 to |ids|
        invariant forall p :: p in assignments <==> AtPlace(db, ids[..k], p) != []
        invariant forall p | p in assignments :: assignments[p] == AtPlace(db, ids[..k], p)
        invariant toFix == Half(db, ids[..k])
      {
        assert ids[..k + 1][..k] == ids[..k];
        HalfOneMore(db, ids, k);
        var spool := db[ids[k]];
        if spool.printer != "" && spool.gate >= 0 {
          var place := Place(spool.printer, spool.gate);
          var there := if place in assignments then assignments[place] else [];
          assert there == AtPlace(db, ids[..k], place);
          assignments := assignments[place := there + [ids[k]]];
        }
        if (spool.printer != "" && spool.gate < 0) || (spool.gate >= 0 && spool.printer == "") {
          toFix := toFix + {ids[k]};
        }
      }
      assert ids[..|ids|] == ids;
      var later := LaterIn(assignments);
      toFix := toFix + later;
      LaterAreToFix(db, ids, assignments);
    }

    static method LaterIn(assignments: map<Place, seq<SpoolId>>) returns (later: set<SpoolId>)
      requires forall p | p in assignments :: assignments[p] != []
      ensures forall id :: id in later <==> exists p | p in assignments :: id in assignments[p][1..]
    {
      later := {};
      var todo := assignments.Keys;
      while todo != {}
        invariant todo <= assignments.Keys
        invariant forall id :: id in later <==> exists p | p in assignments && p !in todo :: id in assignments[p][1..]
        decreases |todo|
      {
        var p :| p in todo;
        var there := assignments[p];
        if |there| > 1 {
          later := later + set id | id in there[1..];
        }
        todo := todo - {p};
      }
    }

    // ------------------------------------------------------------------------------------------- gate commands

    method ClearSpoolsForPrinter(printer: string, failing: set<SpoolId>) returns (changes: map<int, int>)
      modifies this`spoolLocation, spoolman
      ensures View() == Step(old(View()), host, gateCount, Clear(printer, failing))
      ensures changes == TakenOffChanges(old(View()), host, gateCount,
                           FindAll(old(spoolLocation), if printer == "" then host else printer, None), failing)
    {
      var name := if printer == "" then host else printer;
      changes := TakeOff(FindAll(spoolLocation, name, None), failing);
    }

    method UnsetSpoolGate(gate: Option<int>, id: Option<SpoolId>, failing: set<SpoolId>)
      returns (ok: bool, changes: map<int, int>)
      modifies this`spoolLocation, spoolman
      ensures View() == Step(old(View()), host, gateCount, Unset(gate, id, failing))
      ensures ok <==> gate.Some? != id.Some?
      ensures changes == TakenOffChanges(old(View()), host, gateCount,
                           UnsetTargets(old(spoolLocation), host, gate, id), failing)
    {
      if gate.None? && id.None? {
        ok := false;
      } else if gate.Some? && id.Some? {
        ok := false;
      } else {
        ok := true;
      }
      changes := map[];
      if !ok {
        NothingTakenOff(View(), failing);
        return;
      }
      var ids := if gate.Some? then FindAll(spoolLocation, host, gate) else {id.value};
      changes := TakeOff(ids, failing);
    }

    method SetSpoolGate(id: SpoolId, gate: Option<int>, failing: set<SpoolId>)
      returns (ok: bool, changes: map<int, int>)
      modifies this`spoolLocation, spoolman
      ensures View() == Step(old(View()), host, gateCount, Set(id, gate, failing))
      ensures ok <==> TargetGate(gate, gateCount).Some?
      ensures changes == if ok
                         then SetChanges(old(View()), host, gateCount, TargetGate(gate, gateCount).value, id, failing)
                         else map[]
    {
      changes := map[];
      if gate.Some? && gate.value < 0 {
        return false, changes;
      }
      if gate.Some? && gate.value > gateCount - 1 {
        return false, changes;
      }
      if gate.None? && gateCount != 0 {
        return false, changes;
      }
      ok := true;
      var target := if gate.None? then 0 else gate.value;
      changes := PlaceSpool(id, target, failing);
    }

    method PlaceSpool(id: SpoolId, gate: int, failing: set<SpoolId>) returns (changes: map<int, int>)
      modifies this`spoolLocation, spoolman
      ensures View() == Patched(old(View()), SetUpdates(old(spoolLocation), host, gate, id), failing)
      ensures changes == SetChanges(old(View()), host, gateCount, gate, id, failing)
    {
      ghost var before := View();
      var updates := SetUpdates(spoolLocation, host, gate, id);
      var others := FindAll(spoolLocation, host, Some(gate)) - {id};
      var accepted := SendAll(updates, failing);
      changes := CacheTakenOff(others, updates, accepted, before, failing);
      changes := PlaceChanges(id, gate, updates, id in accepted, changes, before, failing);
      CacheOne(id, updates, id in accepted, before, others, failing);
      PartAll(updates, others + {id});
    }

    method PlaceChanges(id: SpoolId, gate: int, updates: map<SpoolId, Place>, ok: bool, changes: map<int, int>,
                        ghost before: State, ghost failing: set<SpoolId>)
      returns (more: map<int, int>)
      requires id in updates && ok == Accepted(before.db, id, failing)
      requires
        var others := FindAll(before.cache, host, Some(gate)) - {id};
        && spoolLocation == Recached(before.cache, before.db, Part(updates, others), failing)
        && changes == TakenOffChanges(before, host, gateCount, others, failing)
      ensures more == SetChanges(before, host, gateCount, gate, id, failing)
    {
      RecachedOne(before.cache, before.db, updates, FindAll(before.cache, host, Some(gate)) - {id}, id, failing);
      SetAfterOthers(before, host, gateCount, gate, id, failing);
      more := changes;
      if ok && 0 <= gate < gateCount {
        var e := Cached(spoolLocation, id);
        if e.printer == host && 0 <= e.gate < gateCount && e.gate !in changes {
          more := changes[e.gate := -1];
        }
        more := more[gate := id];
      }
    }

    /** One of the spools on a gate, or -1. */
    method FindFirst(gate: int) returns (spool: int)
      ensures if FindAll(spoolLocation, host, Some(gate)) == {} then spool == -1
              else spool >= 0 && spool in FindAll(spoolLocation, host, Some(gate))
    {
      var found := FindAll(spoolLocation, host, Some(gate));
      if found == {} {
        return -1;
      }
      var id :| id in found;
      spool := id;
    }

    method PullGateMap() returns (gates: seq<GateSpool>)
      ensures PullReturns(spoolLocation, host, gateCount, gates)
    {
      gates := [];
      for g := 0 to gateCount
        invariant |gates| == g
        invariant forall k | 0 <= k < g ::
                    && gates[k].gate == k
                    && (if FindAll(spoolLocation, host, Some(k)) == {} then gates[k].spool == -1
                        else gates[k].spool >= 0 && gates[k].spool in FindAll(spoolLocation, host, Some(k)))
      {
        var spool := FindFirst(g);
        gates := gates + [GateSpool(g, spool)];
      }
    }

    method PushGateMap(gates: seq<GateSpool>, failing: set<SpoolId>) returns (ok: bool)
      modifies this`spoolLocation, spoolman
      ensures View() == Step(old(View()), host, gateCount, Push(gates, failing))
      ensures ok <==> gates != []
    {
      if gates == [] {
        return false;
      }
      ok := true;
      var updates := Moves(gates);
      MoveAll(updates, failing);
    }

    method Moves(gates: seq<GateSpool>) returns (updates: map<SpoolId, Place>)
      ensures updates == PushUpdates(spoolLocation, host, gateCount, gates)
    {
      var replaced := Replaced(gates);
      var layered := Layered(gates, replaced);
      var moves := WithDirty(gates, layered);
      LayersArePush(spoolLocation, host, gateCount, gates, replaced, layered);
      updates := map id | id in moves :: if moves[id] < 0 then NOWHERE else Place(host, moves[id]);
      assert updates == Placed(moves, host);
    }

    /** Takes off the spools on the pushed gates. */
    method Replaced(gates: seq<GateSpool>) returns (moves: map<SpoolId, int>)
      ensures moves == map id | id in OnGates(spoolLocation, host, gates) :: -1
    {
      moves := map[];
      for k := 0 to |gates|
        invariant moves == map id | id in OnGates(spoolLocation, host, gates[..k]) :: -1
      {
        var found := FindAll(spoolLocation, host, Some(gates[k].gate));
        moves := moves + map id | id in found :: -1;
        assert gates[..k + 1] == gates[..k] + [gates[k]];
        OnOneMoreGate(spoolLocation, host, gates[..k], gates[k]);
      }
      assert gates[..|gates|] == gates;
    }

    /** Layers the pushed spools over the moves. */
    method Layered(gates: seq<GateSpool>, start: map<SpoolId, int>) returns (moves: map<SpoolId, int>)
      ensures moves.Keys == start.Keys + Listed(gates)
      ensures forall id | id in moves :: moves[id] == GateOr(gates, id, start)
    {
      moves := start;
      for k := 0 to |gates|
        invariant moves.Keys == start.Keys + Listed(gates[..k])
        invariant forall id | id in moves :: moves[id] == GateOr(gates[..k], id, start)
      {
        assert gates[..k + 1][..k] == gates[..k];
        assert gates[..k + 1] == gates[..k] + [gates[k]];
        if gates[k].spool > 0 {
          moves := moves[gates[k].spool := gates[k].gate];
        }
        ListedOneMore(gates[..k], gates[k]);
      }
      assert gates[..|gates|] == gates;
    }

    /** Takes off, if all gates are pushed, the other spools of this printer. */
    method WithDirty(gates: seq<GateSpool>, start: map<SpoolId, int>) returns (moves: map<SpoolId, int>)
      ensures moves == OffGate(start, Dirty(spoolLocation, host, gateCount, gates))
    {
      moves := start;
      if |gates| == gateCount {
        ghost var dirty: set<SpoolId> := {};
        var todo := spoolLocation.Keys;
        while todo != {}
          invariant todo <= spoolLocation.Keys
          invariant forall id :: id in dirty <==>
                      id in spoolLocation && id !in todo && spoolLocation[id].printer == host && !Names(gates, id)
          invariant moves == OffGate(start, dirty)
          decreases |todo|
        {
          var id :| id in todo;
          if spoolLocation[id].printer == host && !Names(gates, id) {
            OneMoreOff(start, dirty, id);
            moves := moves[id := -1];
            dirty := dirty + {id};
          }
          todo := todo - {id};
        }
        assert dirty == Dirty(spoolLocation, host, gateCount, gates);
      } else {
        assert Dirty(spoolLocation, host, gateCount, gates) == {};
      }
    }

    // --------------------------------------------------------------------------------------------- tag commands

    method SetSpoolUid(id: SpoolId, uids: seq<Uid>, blank: bool, append: bool, unread: bool, stuck: set<Uid>,
                       fails: bool)
      returns (ok: bool)
      modifies this`spoolLocation, this`uidToSpoolId, this`uidMissCache, spoolman
      ensures View() == SpoolTagged(old(View()), id, uids, blank, append, unread, stuck, fails)
      ensures ok <==> id in old(spoolman.spools) && !fails
                      && if append then uids != [] && !unread else uids != [] || blank
      ensures !T.Acceptable(old(View()), id, uids, blank, append, unread) ==> View() == old(View())
    {
      T.AcceptedExactly(View(), id, uids, blank, append, unread, stuck, fails);
      if !blank && uids == [] {
        return false;
      }
      if append && uids == [] {
        return false;
      }
      var written := uids;
      if append {
        if unread || id !in spoolman.spools {
          return false;
        }
        written := Appended(spoolman.spools[id].uids, uids);
      }
      ghost var before := View();
      for k := 0 to |uids|
        invariant View() == StrippedAll(before, id, uids[..k], stuck)
        invariant uidToSpoolId == before.owners && spoolman.spools.Keys == before.db.Keys
      {
        assert uids[..k + 1][..k] == uids[..k];
        Strip(id, uids[k], uids[k] in stuck);
      }
      assert uids[..|uids|] == uids;
      ok := spoolman.PatchUids(id, written, fails);
      if ok {
        uidToSpoolId := (map u | u in uidToSpoolId && uidToSpoolId[u] != id :: uidToSpoolId[u])
                        + map u | u in written :: id;
        uidMissCache := set u | u in uidMissCache && u !in uids;
        if id in spoolLocation {
          spoolLocation := spoolLocation[id := spoolLocation[id].(uids := Some(written))];
        }
      }
    }

    /** Takes a tag off another spool that has it. */
    method Strip(id: SpoolId, u: Uid, fails: bool)
      modifies this`spoolLocation, spoolman
      ensures View() == Stripped(old(View()), id, u, if fails then {u} else {})
      ensures spoolman.spools.Keys == old(spoolman.spools).Keys
    {
      if u !in uidToSpoolId || uidToSpoolId[u] == id {
        return;
      }
      var other := uidToSpoolId[u];
      if other !in spoolman.spools {
        return;
      }
      var uids := Without(spoolman.spools[other].uids, u);
      var ok := spoolman.PatchUids(other, uids, fails);
      if ok && other in spoolLocation {
        spoolLocation := spoolLocation[other := spoolLocation[other].(uids := Some(uids))];
      }
    }

    /** Reads one record live into the caches. */
    method CacheInsertSpool(id: SpoolId)
      modifies this`spoolLocation, this`uidToSpoolId
      ensures View() == Inserted(old(View()), id)
    {
      if id !in spoolman.spools {
        return;
      }
      spoolLocation := spoolLocation[id := EntryOf(spoolman.spools[id])];
      uidToSpoolId := WithTags(uidToSpoolId, spoolman.spools[id].uids, id);
    }

    /** Leads each of the tags to the spool. */
    static method WithTags(start: map<Uid, SpoolId>, uids: seq<Uid>, id: SpoolId) returns (owners: map<Uid, SpoolId>)
      ensures owners == start + map u | u in uids :: id
    {
      owners := start;
      for n := 0 to |uids|
        invariant owners == start + map u | u in uids[..n] :: id
      {
        owners := owners[uids[n] := id];
        assert uids[..n + 1] == uids[..n] + [uids[n]];
      }
      assert uids[..|uids|] == uids;
    }
  }

  // ---------------------------------------------------------------------------------------- spools to be fixed

  predicate At(db: map<SpoolId, Spool>, id: SpoolId, p: Place)
    requires id in db
  {
    Assigned(db[id]) && db[id].printer == p.printer && db[id].gate == p.gate
  }

  /** The spools assigned to a place, in the order listed. */
  function AtPlace(db: map<SpoolId, Spool>, ids: seq<SpoolId>, p: Place): seq<SpoolId>
    requires forall i | 0 <= i < |ids| :: ids[i] in db
  {
    if ids == [] then []
    else
      var last := ids[|ids| - 1];
      AtPlace(db, ids[..|ids| - 1], p) + if At(db, last, p) then [last] else []
  }

  function Half(db: map<SpoolId, Spool>, ids: seq<SpoolId>): set<SpoolId>
    requires forall i | 0 <= i < |ids| :: ids[i] in db
  {
    set k | 0 <= k < |ids| && HalfAssigned(db[ids[k]]) :: ids[k]
  }

  lemma HalfOneMore(db: map<SpoolId, Spool>, ids: seq<SpoolId>, k: nat)
    requires k < |ids| && forall i | 0 <= i < |ids| :: ids[i] in db
    ensures Half(db, ids[..k + 1]) == Half(db, ids[..k]) + if HalfAssigned(db[ids[k]]) then {ids[k]} else {}
  {
    var front, more := ids[..k], ids[..k + 1];
    assert forall i | 0 <= i < k :: more[i] == front[i];
    assert more[k] == ids[k];
  }

  lemma {:induction false} AtPlaceHolds(db: map<SpoolId, Spool>, ids: seq<SpoolId>, p: Place)
    requires forall i | 0 <= i < |ids| :: ids[i] in db
    ensures AtPlace(db, ids, p) == [] <==> forall i | 0 <= i < |ids| :: !At(db, ids[i], p)
  {
    if ids != [] {
      AtPlaceHolds(db, ids[..|ids| - 1], p);
    }
  }

  /** All but the first at a place are those that come after another one there. */
  lemma {:induction false} LaterAtPlace(db: map<SpoolId, Spool>, ids: seq<SpoolId>, p: Place, id: SpoolId)
    requires forall i | 0 <= i < |ids| :: ids[i] in db
    requires AtPlace(db, ids, p) != []
    ensures id in AtPlace(db, ids, p)[1..] <==>
            exists j, k | 0 <= j < k < |ids| :: At(db, ids[j], p) && At(db, ids[k], p) && ids[k] == id
  {
    var front, last := ids[..|ids| - 1], ids[|ids| - 1];
    var before := AtPlace(db, front, p);
    AtPlaceHolds(db, front, p);
    if before == [] {
      assert AtPlace(db, ids, p)[1..] == [];
    } else {
      LaterAtPlace(db, front, p, id);
      var i :| 0 <= i < |front| && At(db, front[i], p);
      assert AtPlace(db, ids, p)[1..] == before[1..] + if At(db, last, p) then [last] else [];
      if At(db, last, p) && last == id {
        assert At(db, ids[i], p) && At(db, ids[|ids| - 1], p);
      }
      if j, k :| 0 <= j < k < |front| && At(db, front[j], p) && At(db, front[k], p) && front[k] == id {
        assert At(db, ids[j], p) && At(db, ids[k], p);
      }
      if j, k :| 0 <= j < k < |ids| && At(db, ids[j], p) && At(db, ids[k], p) && ids[k] == id {
        assert front[j] == ids[j];
        if k < |front| {
          assert front[k] == ids[k];
        }
      }
    }
  }

  lemma LaterAreToFix(db: map<SpoolId, Spool>, ids: seq<SpoolId>, assignments: map<Place, seq<SpoolId>>)
    requires forall i | 0 <= i < |ids| :: ids[i] in db
    requires forall p :: p in assignments <==> AtPlace(db, ids, p) != []
    requires forall p | p in assignments :: assignments[p] == AtPlace(db, ids, p)
    ensures forall id :: id in ToFix(db, ids)
              <==> id in Half(db, ids) || exists p | p in assignments :: id in assignments[p][1..]
  {
    forall id
      ensures id in ToFix(db, ids)
              <==> id in Half(db, ids) || exists p | p in assignments :: id in assignments[p][1..]
    {
      if p :| p in assignments && id in assignments[p][1..] {
        LaterAtPlace(db, ids, p, id);
        var j, k :| 0 <= j < k < |ids| && At(db, ids[j], p) && At(db, ids[k], p) && ids[k] == id;
        assert NeedsFix(db, ids, k);
      }
      if k :| 0 <= k < |ids| && HalfAssigned(db[ids[k]]) && ids[k] == id {
        assert NeedsFix(db, ids, k);
      }
      if id in ToFix(db, ids) && id !in Half(db, ids) {
        var k :| 0 <= k < |ids| && NeedsFix(db, ids, k) && ids[k] == id;
        var j :| 0 <= j < k && SamePlace(db[ids[j]], db[ids[k]]);
        var p := Place(db[id].printer, db[id].gate);
        assert At(db, ids[j], p) && At(db, ids[k], p);
        AtPlaceHolds(db, ids, p);
        LaterAtPlace(db, ids, p, id);
      }
    }
  }

  // ---------------------------------------------------------------------------------------- steps of the loops

  ghost function Part(updates: map<SpoolId, Place>, ids: set<SpoolId>): map<SpoolId, Place> {
    map id | id in ids && id in updates :: updates[id]
  }

  lemma PartAll(updates: map<SpoolId, Place>, ids: set<SpoolId>)
    requires ids == updates.Keys
    ensures Part(updates, ids) == updates
  {
  }

  lemma NoneRecached(s: State, updates: map<SpoolId, Place>, failing: set<SpoolId>)
    ensures Recached(s.cache, s.db, Part(updates, {}), failing) == s.cache
    ensures forall host, gateCount :: TakenOffChanges(s, host, gateCount, {}, failing) == map[]
  {
  }

  lemma OneAccepted(ids: set<SpoolId>, db: map<SpoolId, Spool>, failing: set<SpoolId>, id: SpoolId)
    ensures AcceptedOf(ids + {id}, db, failing)
            == AcceptedOf(ids, db, failing) + if Accepted(db, id, failing) then {id} else {}
  {
  }

  lemma NoneSent(db: map<SpoolId, Spool>, updates: map<SpoolId, Place>, failing: set<SpoolId>)
    ensures PatchedDb(db, Part(updates, {}), failing) == db
  {
  }

  lemma OneSent(db: map<SpoolId, Spool>, updates: map<SpoolId, Place>, ids: set<SpoolId>, id: SpoolId,
                failing: set<SpoolId>)
    requires id in updates && id !in ids
    ensures
      var before := PatchedDb(db, Part(updates, ids), failing);
      && before.Keys == db.Keys
      && PatchedDb(db, Part(updates, ids + {id}), failing) ==
         if Accepted(db, id, failing)
         then before[id := Spool(updates[id].printer, updates[id].gate, before[id].uids)]
         else before
  {
  }

  lemma RecachedOne(cache: map<SpoolId, Entry>, db: map<SpoolId, Spool>, updates: map<SpoolId, Place>,
                    ids: set<SpoolId>, id: SpoolId, failing: set<SpoolId>)
    requires id in updates && id !in ids
    ensures
      var before := Recached(cache, db, Part(updates, ids), failing);
      Recached(cache, db, Part(updates, ids + {id}), failing) ==
        if Accepted(db, id, failing)
        then before[id := Entry(updates[id].printer, updates[id].gate, Cached(before, id).uids)]
        else before
    ensures Cached(Recached(cache, db, Part(updates, ids), failing), id) == Cached(cache, id)
  {
  }

  lemma TakenOffOne(s: State, host: string, gateCount: nat, ids: set<SpoolId>, id: SpoolId, failing: set<SpoolId>)
    requires id !in ids
    ensures
      var e := Cached(s.cache, id);
      var before := TakenOffChanges(s, host, gateCount, ids, failing);
      TakenOffChanges(s, host, gateCount, ids + {id}, failing) ==
        if Accepted(s.db, id, failing) && id in s.cache && e.printer == host && 0 <= e.gate < gateCount
        then before[e.gate := -1] else before
  {
  }

  lemma NothingTakenOff(s: State, failing: set<SpoolId>)
    ensures Patched(s, Nowhere({}), failing) == s
    ensures forall host, gateCount :: TakenOffChanges(s, host, gateCount, {}, failing) == map[]
  {
  }

  /** Freeing the gate comes before the set itself. */
  lemma SetAfterOthers(s: State, host: string, gateCount: nat, gate: int, id: SpoolId, failing: set<SpoolId>)
    ensures
      var others := FindAll(s.cache, host, Some(gate)) - {id};
      var before := TakenOffChanges(s, host, gateCount, others, failing);
      var e := Cached(s.cache, id);
      SetChanges(s, host, gateCount, gate, id, failing) ==
        if Accepted(s.db, id, failing) && 0 <= gate < gateCount then
          (if e.printer == host && 0 <= e.gate < gateCount then before[e.gate := -1] else before)[gate := id]
        else before
  {
    var others := FindAll(s.cache, host, Some(gate)) - {id};
    var before := TakenOffChanges(s, host, gateCount, others, failing);
    forall g
      ensures g in before <==>
                (g == gate && 0 <= gate < gateCount && exists o | o in others :: Accepted(s.db, o, failing))
    {
    }
  }

  ghost function OnGates(cache: map<SpoolId, Entry>, host: string, gates: seq<GateSpool>): set<SpoolId> {
    set id, k | id in cache && 0 <= k < |gates| && cache[id].printer == host && cache[id].gate == gates[k].gate :: id
  }

  lemma OnOneMoreGate(cache: map<SpoolId, Entry>, host: string, gates: seq<GateSpool>, last: GateSpool)
    ensures OnGates(cache, host, gates + [last]) == OnGates(cache, host, gates) + FindAll(cache, host, Some(last.gate))
  {
    forall id
      ensures id in OnGates(cache, host, gates + [last])
              <==> id in OnGates(cache, host, gates) || id in FindAll(cache, host, Some(last.gate))
    {
      if id in OnGates(cache, host, gates) {
        var k :| 0 <= k < |gates| && cache[id].gate == gates[k].gate;
        assert (gates + [last])[k] == gates[k];
      }
      if id in FindAll(cache, host, Some(last.gate)) {
        assert (gates + [last])[|gates|] == last;
      }
    }
  }

  function Dirty(cache: map<SpoolId, Entry>, host: string, gateCount: nat, gates: seq<GateSpool>): set<SpoolId> {
    set id | id in cache && |gates| == gateCount && cache[id].printer == host && !Names(gates, id)
  }

  ghost function OffGate(moves: map<SpoolId, int>, ids: set<SpoolId>): map<SpoolId, int> {
    moves + map id | id in ids :: -1
  }

  lemma OneMoreOff(moves: map<SpoolId, int>, ids: set<SpoolId>, id: SpoolId)
    ensures OffGate(moves, ids + {id}) == OffGate(moves, ids)[id := -1]
  {
  }

  lemma LayerPlace(gates: seq<GateSpool>, host: string, replaced: map<SpoolId, int>, layered: map<SpoolId, int>,
                   dirty: set<SpoolId>, id: SpoolId)
    requires forall x | x in replaced :: replaced[x] == -1
    requires forall x | x in layered :: layered[x] == GateOr(gates, x, replaced)
    requires id in dirty ==> GateFor(gates, id).None?
    ensures id in OffGate(layered, dirty) <==> id in layered || id in dirty
    ensures id in OffGate(layered, dirty) ==>
              PlaceFor(gates, id, host) ==
              if OffGate(layered, dirty)[id] < 0 then NOWHERE else Place(host, OffGate(layered, dirty)[id])
  {
  }

  ghost function Placed(moves: map<SpoolId, int>, host: string): map<SpoolId, Place> {
    map id | id in moves :: if moves[id] < 0 then NOWHERE else Place(host, moves[id])
  }

  /** The three layers of moves make up the push. */
  lemma LayersArePush(cache: map<SpoolId, Entry>, host: string, gateCount: nat, gates: seq<GateSpool>,
                      replaced: map<SpoolId, int>, layered: map<SpoolId, int>)
    requires replaced.Keys == OnGates(cache, host, gates) && forall id | id in replaced :: replaced[id] == -1
    requires layered.Keys == replaced.Keys + Listed(gates)
    requires forall id | id in layered :: layered[id] == GateOr(gates, id, replaced)
    ensures PushUpdates(cache, host, gateCount, gates)
         == Placed(OffGate(layered, Dirty(cache, host, gateCount, gates)), host)
  {
    PushIs(cache, host, gateCount, gates);
    var dirty := Dirty(cache, host, gateCount, gates);
    var placed := Placed(OffGate(layered, dirty), host);
    LayersPlaced(gates, host, replaced, layered, dirty);
    SamePlaces(placed, PushUpdates(cache, host, gateCount, gates));
  }

  lemma SamePlaces(a: map<SpoolId, Place>, b: map<SpoolId, Place>)
    requires forall id :: (id in a <==> id in b) && (id in a ==> a[id] == b[id])
    ensures a == b
  {
  }

  lemma LayersPlaced(gates: seq<GateSpool>, host: string, replaced: map<SpoolId, int>, layered: map<SpoolId, int>,
                     dirty: set<SpoolId>)
    requires forall id | id in replaced :: replaced[id] == -1
    requires layered.Keys == replaced.Keys + Listed(gates)
    requires forall id | id in layered :: layered[id] == GateOr(gates, id, replaced)
    requires forall id | id in dirty :: !Names(gates, id)
    ensures
      var placed := Placed(OffGate(layered, dirty), host);
      forall id :: (id in placed <==> id in layered || id in dirty)
                   && (id in placed ==> placed[id] == PlaceFor(gates, id, host))
  {
    var placed := Placed(OffGate(layered, dirty), host);
    forall id
      ensures id in placed <==> id in layered || id in dirty
      ensures id in placed ==> placed[id] == PlaceFor(gates, id, host)
    {
      if id in dirty {
        GateForUnnamed(gates, id);
      }
      LayerPlace(gates, host, replaced, layered, dirty, id);
    }
  }

  function PlaceFor(gates: seq<GateSpool>, id: SpoolId, host: string): Place {
    var gate := GateFor(gates, id);
    if gate.Some? && gate.value >= 0 then Place(host, gate.value) else NOWHERE
  }

  lemma PushIs(cache: map<SpoolId, Entry>, host: string, gateCount: nat, gates: seq<GateSpool>)
    ensures PushUpdates(cache, host, gateCount, gates) ==
            map id | id in Listed(gates) + OnGates(cache, host, gates) + Dirty(cache, host, gateCount, gates) ::
              PlaceFor(gates, id, host)
  {
  }

  ghost function Listed(gates: seq<GateSpool>): set<SpoolId> {
    set k | 0 <= k < |gates| && gates[k].spool > 0 :: gates[k].spool as SpoolId
  }

  lemma ListedOneMore(gates: seq<GateSpool>, last: GateSpool)
    ensures Listed(gates + [last]) == Listed(gates) + if last.spool > 0 then {last.spool as SpoolId} else {}
  {
    var more := gates + [last];
    forall id | id in Listed(gates) ensures id in Listed(more) {
      var k :| 0 <= k < |gates| && gates[k].spool > 0 && gates[k].spool == id;
      assert more[k] == gates[k];
    }
    if last.spool > 0 {
      assert more[|gates|].spool > 0;
    }
  }

  ghost function GateOr(gates: seq<GateSpool>, id: SpoolId, start: map<SpoolId, int>): int {
    var gate := GateFor(gates, id);
    if gate.Some? then gate.value else if id in start then start[id] else -1
  }
}
