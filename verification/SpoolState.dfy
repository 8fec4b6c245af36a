/** The spool cache and the Spoolman database it mirrors, and what every command does to the two. A command sends one
    PATCH for each spool it touches; any subset of them may fail. */
module SpoolState {

  type Uid = string
  type SpoolId = nat

  datatype Option<T> =
    | None
    | Some(value: T)

  /** A database record. */
  datatype Spool = Spool(printer: string, gate: int, uids: seq<Uid>)

  /** A cached record; the tags are unknown for a spool that was never fetched. */
  datatype Entry = Entry(printer: string, gate: int, uids: Option<seq<Uid>>)

  datatype Place = Place(printer: string, gate: int)

  const NOWHERE := Place("", -1)

  const UNCACHED := Entry("", -1, None)

  /** `owners` is the reverse map from tags to spools, `misses` the tags known to be unknown. */
  datatype State = State(
    db: map<SpoolId, Spool>,
    cache: map<SpoolId, Entry>,
    owners: map<Uid, SpoolId>,
    misses: set<Uid>)

  function EntryOf(spool: Spool): Entry {
    Entry(spool.printer, spool.gate, Some(spool.uids))
  }

  /** The cached record, or the one the code falls back to. */
  function Cached(cache: map<SpoolId, Entry>, id: SpoolId): Entry {
    if id in cache then cache[id] else UNCACHED
  }

  /** A PATCH goes through when the record exists and the request does not fail. */
  predicate Accepted(db: map<SpoolId, Spool>, id: SpoolId, failing: set<SpoolId>) {
    id in db && id !in failing
  }

  /** Moves each spool in `updates` to its new place, in the database and then in the cache, request by request. */
  function Patched(s: State, updates: map<SpoolId, Place>, failing: set<SpoolId>): State {
    s.(db := PatchedDb(s.db, updates, failing), cache := Recached(s.cache, s.db, updates, failing))
  }

  function PatchedDb(db: map<SpoolId, Spool>, updates: map<SpoolId, Place>, failing: set<SpoolId>)
    : map<SpoolId, Spool>
  {
    map id | id in db ::
      if id in updates && id !in failing then Spool(updates[id].printer, updates[id].gate, db[id].uids) else db[id]
  }

  function Recached(cache: map<SpoolId, Entry>, db: map<SpoolId, Spool>, updates: map<SpoolId, Place>,
                    failing: set<SpoolId>): map<SpoolId, Entry>
  {
    map id | id in cache.Keys + updates.Keys && (id in cache || Accepted(db, id, failing)) ::
      if id in updates && Accepted(db, id, failing)
      then Entry(updates[id].printer, updates[id].gate, Cached(cache, id).uids) else cache[id]
  }

  // ------------------------------------------------------------------------------------ rebuilding the cache

  predicate HalfAssigned(spool: Spool) {
    (spool.printer != "" && spool.gate < 0) || (spool.gate >= 0 && spool.printer == "")
  }

  predicate Assigned(spool: Spool) {
    spool.printer != "" && spool.gate >= 0
  }

  predicate SamePlace(a: Spool, b: Spool) {
    a.printer == b.printer && a.gate == b.gate
  }

  /** Half assigned, or assigned to a gate that a spool listed earlier already has. */
  predicate NeedsFix(db: map<SpoolId, Spool>, order: seq<SpoolId>, k: nat)
    requires k < |order| && forall i | 0 <= i < |order| :: order[i] in db
  {
    || HalfAssigned(db[order[k]])
    || (Assigned(db[order[k]]) && exists j | 0 <= j < k :: SamePlace(db[order[j]], db[order[k]]))
  }

  function ToFix(db: map<SpoolId, Spool>, order: seq<SpoolId>): set<SpoolId>
    requires forall i | 0 <= i < |order| :: order[i] in db
  {
    set k | 0 <= k < |order| && NeedsFix(db, order, k) :: order[k]
  }

  /** The spool that registers each tag, the last one listed if there are several. */
  function OwnersOf(db: map<SpoolId, Spool>, order: seq<SpoolId>): map<Uid, SpoolId>
    requires forall i | 0 <= i < |order| :: order[i] in db
  {
    if order == [] then map[]
    else
      var last := order[|order| - 1];
      OwnersOf(db, order[..|order| - 1]) + map u | u in db[last].uids :: last
  }

  /** The cache built from a response that lists the records in the given order. */
  function Built(s: State, order: seq<SpoolId>): State
    requires forall i | 0 <= i < |order| :: order[i] in s.db
  {
    s.(cache := map id | id in order :: EntryOf(s.db[id]), owners := OwnersOf(s.db, order))
  }

  function Nowhere(ids: set<SpoolId>): map<SpoolId, Place> {
    map id | id in ids :: NOWHERE
  }

  /** `order` is none when the database could not be read. */
  function Refreshed(s: State, order: Option<seq<SpoolId>>, fix: bool, failing: set<SpoolId>): State {
    if order.None? || exists i | 0 <= i < |order.value| :: order.value[i] !in s.db then s
    else
      var built := Built(s, order.value);
      if fix then Patched(built, Nowhere(ToFix(s.db, order.value)), failing) else built
  }

  // ------------------------------------------------------------------------------------------- gate commands

  /** The cached spools on a printer, or on one of its gates. */
  function FindAll(cache: map<SpoolId, Entry>, printer: string, gate: Option<int>): set<SpoolId> {
    set id | id in cache && cache[id].printer == printer && (gate.None? || cache[id].gate == gate.value)
  }

  datatype GateSpool = GateSpool(gate: int, spool: int)

  /** The gate a list gives a spool; the last one if there are several. */
  function GateFor(gates: seq<GateSpool>, id: SpoolId): Option<int> {
    if gates == [] then None
    else
      var last := gates[|gates| - 1];
      if last.spool == id && id > 0 then Some(last.gate) else GateFor(gates[..|gates| - 1], id)
  }

  predicate Names(gates: seq<GateSpool>, id: SpoolId) {
    exists k | 0 <= k < |gates| :: gates[k].spool == id
  }

  /** Spools to be moved by a push: those on the pushed gates and, if all gates are pushed, every other spool of this
      printer, are taken off, and the pushed spools are put where the list says. */
  function PushUpdates(cache: map<SpoolId, Entry>, host: string, gateCount: nat, gates: seq<GateSpool>)
    : map<SpoolId, Place>
  {
    var listed := set k | 0 <= k < |gates| && gates[k].spool > 0 :: gates[k].spool as SpoolId;
    var replaced := set id, k | id in cache && 0 <= k < |gates|
                                && cache[id].printer == host && cache[id].gate == gates[k].gate :: id;
    var dirty := set id | id in cache && |gates| == gateCount && cache[id].printer == host && !Names(gates, id);
    map id | id in listed + replaced + dirty ::
      var gate := GateFor(gates, id);
      if gate.Some? && gate.value >= 0 then Place(host, gate.value) else NOWHERE
  }

  /** Spools to be moved when one is put on a gate. */
  function SetUpdates(cache: map<SpoolId, Entry>, host: string, gate: int, id: SpoolId): map<SpoolId, Place> {
    Nowhere(FindAll(cache, host, Some(gate)))[id := Place(host, gate)]
  }

  /** The gate that `set_spool_gate` works with, if its arguments are acceptable. */
  function TargetGate(gate: Option<int>, gateCount: nat): Option<int> {
    if gate.Some? then (if 0 <= gate.value < gateCount then gate else None)
    else if gateCount > 0 then None
    else Some(0)
  }

  /** `gate` and `id` exclude each other. */
  function UnsetTargets(cache: map<SpoolId, Entry>, host: string, gate: Option<int>, id: Option<SpoolId>)
    : set<SpoolId>
  {
    if gate.Some? == id.Some? then {}
    else if gate.Some? then FindAll(cache, host, gate)
    else {id.value}
  }

  // -------------------------------------------------------------------------------------------- tag commands

  function Without(uids: seq<Uid>, u: Uid): (r: seq<Uid>)
    ensures forall x :: x in r <==> x in uids && x != u
  {
    if uids == [] then [] else (if uids[0] == u then [] else [uids[0]]) + Without(uids[1..], u)
  }

  function Appended(existing: seq<Uid>, more: seq<Uid>): (r: seq<Uid>)
    ensures forall x :: x in r <==> x in existing || x in more
  {
    if more == [] then existing
    else Appended(existing, more[..|more| - 1])
         + if more[|more| - 1] in existing then [] else [more[|more| - 1]]
  }

  /** A tag of the list that another spool has. */
  predicate Moved(owners: map<Uid, SpoolId>, id: SpoolId, u: Uid) {
    u in owners && owners[u] != id
  }

  /** Takes a tag off the spool that has it, unless the spool cannot be read or written. */
  function Stripped(s: State, id: SpoolId, u: Uid, stuck: set<Uid>): State {
    if !Moved(s.owners, id, u) || u in stuck || s.owners[u] !in s.db then s
    else
      var other := s.owners[u];
      var uids := Without(s.db[other].uids, u);
      s.(db := s.db[other := s.db[other].(uids := uids)],
         cache := if other in s.cache then s.cache[other := s.cache[other].(uids := Some(uids))] else s.cache)
  }

  function StrippedAll(s: State, id: SpoolId, uids: seq<Uid>, stuck: set<Uid>): State {
    if uids == [] then s
    else Stripped(StrippedAll(s, id, uids[..|uids| - 1], stuck), id, uids[|uids| - 1], stuck)
  }

  /** Records the tags of a spool, in the database and then in the caches. */
  function Registered(s: State, id: SpoolId, uids: seq<Uid>, known: seq<Uid>): State
    requires id in s.db
  {
    State(s.db[id := s.db[id].(uids := uids)],
          if id in s.cache then s.cache[id := s.cache[id].(uids := Some(uids))] else s.cache,
          (map u | u in s.owners && s.owners[u] != id :: s.owners[u]) + (map u | u in uids :: id),
          set u | u in s.misses && u !in known)
  }

  /** The tags to be written, or none if the command is turned down or the spool cannot be read. */
  function FinalUids(s: State, id: SpoolId, uids: seq<Uid>, blank: bool, append: bool, unread: bool)
    : Option<seq<Uid>>
  {
    if (!blank && uids == []) || (append && uids == []) then None
    else if !append then Some(uids)
    else if unread || id !in s.db then None
    else Some(Appended(s.db[id].uids, uids))
  }

  /** `stuck` are the tags that could not be taken off the spool that has them; `fails` is the fate of the last
      request. */
  function SpoolTagged(s: State, id: SpoolId, uids: seq<Uid>, blank: bool, append: bool, unread: bool,
                       stuck: set<Uid>, fails: bool): State
  {
    var written := FinalUids(s, id, uids, blank, append, unread);
    if written.None? then s
    else
      var stripped := StrippedAll(s, id, uids, stuck);
      if fails || id !in stripped.db then stripped else Registered(stripped, id, written.value, uids)
  }

  /** One record read live from the database into the caches. */
  function Inserted(s: State, id: SpoolId): State {
    if id !in s.db then s
    else s.(cache := s.cache[id := EntryOf(s.db[id])],
            owners := s.owners + map u | u in s.db[id].uids :: id)
  }

  /** A record that is read live is known afterwards, and each of its tags leads to it; a record that is missing changes
      nothing. */
  lemma InsertedKnows(s: State, id: SpoolId, u: Uid, other: SpoolId)
    ensures var after := Inserted(s, id);
            if id in s.db then
              && id in after.cache && after.cache[id] == Entry(s.db[id].printer, s.db[id].gate, Some(s.db[id].uids))
              && (u in s.db[id].uids ==> u in after.owners && after.owners[u] == id)
              && (u !in s.db[id].uids ==> (u in after.owners <==> u in s.owners)
                                          && (u in s.owners ==> after.owners[u] == s.owners[u]))
              && (other != id ==> (other in after.cache <==> other in s.cache)
                                  && (other in s.cache ==> after.cache[other] == s.cache[other]))
              && after.db == s.db && after.misses == s.misses
            else after == s
  {
  }

  // ---------------------------------------------------------------------------------------------------- runs

  datatype Command =
    | Refresh(order: Option<seq<SpoolId>>, fix: bool, failing: set<SpoolId>)
    | Push(gates: seq<GateSpool>, failing: set<SpoolId>)
    | Clear(printer: string, failing: set<SpoolId>)
    | Set(id: SpoolId, gate: Option<int>, failing: set<SpoolId>)
    | Unset(gate: Option<int>, target: Option<SpoolId>, failing: set<SpoolId>)
    | Tag(id: SpoolId, uids: seq<Uid>, blank: bool, append: bool, unread: bool, stuck: set<Uid>, fails: bool)
    | Insert(id: SpoolId)

  function Step(s: State, host: string, gateCount: nat, command: Command): State {
    match command
    case Refresh(order, fix, failing) => Refreshed(s, order, fix, failing)
    case Push(gates, failing) =>
      if gates == [] then s else Patched(s, PushUpdates(s.cache, host, gateCount, gates), failing)
    case Clear(printer, failing) =>
      Patched(s, Nowhere(FindAll(s.cache, if printer == "" then host else printer, None)), failing)
    case Set(id, gate, failing) =>
      var target := TargetGate(gate, gateCount);
      if target.None? then s else Patched(s, SetUpdates(s.cache, host, target.value, id), failing)
    case Unset(gate, target, failing) => Patched(s, Nowhere(UnsetTargets(s.cache, host, gate, target)), failing)
    case Tag(id, uids, blank, append, unread, stuck, fails) =>
      SpoolTagged(s, id, uids, blank, append, unread, stuck, fails)
    case Insert(id) => Inserted(s, id)
  }

  function Run(s: State, host: string, gateCount: nat, commands: seq<Command>): State
    decreases |commands|
  {
    if commands == [] then s
    else Run(Step(s, host, gateCount, commands[0]), host, gateCount, commands[1..])
  }

  // --------------------------------------------------------------------------- the cache mirrors the database

  /** Every cached spool is in the database, at the same printer and gate and, when its tags are known, with the same
      tags. */
  predicate Mirrors(s: State) {
    forall id | id in s.cache ::
      && id in s.db && s.cache[id].printer == s.db[id].printer && s.cache[id].gate == s.db[id].gate
      && (s.cache[id].uids.Some? ==> s.cache[id].uids.value == s.db[id].uids)
  }

  lemma PatchedMirrors(s: State, updates: map<SpoolId, Place>, failing: set<SpoolId>)
    requires Mirrors(s)
    ensures Mirrors(Patched(s, updates, failing))
  {
  }

  lemma {:induction false} StrippedMirrors(s: State, id: SpoolId, uids: seq<Uid>, stuck: set<Uid>)
    requires Mirrors(s)
    ensures Mirrors(StrippedAll(s, id, uids, stuck))
    ensures StrippedAll(s, id, uids, stuck).db.Keys == s.db.Keys
    ensures StrippedAll(s, id, uids, stuck).owners == s.owners
  {
    if uids != [] {
      StrippedMirrors(s, id, uids[..|uids| - 1], stuck);
    }
  }

  lemma StepMirrors(s: State, host: string, gateCount: nat, command: Command)
    requires Mirrors(s)
    ensures Mirrors(Step(s, host, gateCount, command))
  {
    match command
    case Refresh(order, fix, failing) =>
      if order.Some? && forall i | 0 <= i < |order.value| :: order.value[i] in s.db {
        assert Mirrors(Built(s, order.value));
        PatchedMirrors(Built(s, order.value), Nowhere(ToFix(s.db, order.value)), failing);
      }
    case Push(gates, failing) => PatchedMirrors(s, PushUpdates(s.cache, host, gateCount, gates), failing);
    case Clear(printer, failing) =>
      PatchedMirrors(s, Nowhere(FindAll(s.cache, if printer == "" then host else printer, None)), failing);
    case Set(id, gate, failing) =>
      var target := TargetGate(gate, gateCount);
      if target.Some? {
        PatchedMirrors(s, SetUpdates(s.cache, host, target.value, id), failing);
      }
    case Unset(gate, target, failing) =>
      PatchedMirrors(s, Nowhere(UnsetTargets(s.cache, host, gate, target)), failing);
    case Tag(id, uids, _, _, _, stuck, _) => StrippedMirrors(s, id, uids, stuck);
    case Insert(id) =>
  }

  /** The cache mirrors the database after any run of commands, whichever requests fail. */
  lemma {:induction false} RunMirrors(s: State, host: string, gateCount: nat, commands: seq<Command>)
    requires Mirrors(s)
    ensures Mirrors(Run(s, host, gateCount, commands))
    decreases |commands|
  {
    if commands != [] {
      StepMirrors(s, host, gateCount, commands[0]);
      RunMirrors(Step(s, host, gateCount, commands[0]), host, gateCount, commands[1..]);
    }
  }

  // ------------------------------------------------------------------------------------------ fixing a database

  /** A response that lists every record once. */
  predicate Lists(order: seq<SpoolId>, db: map<SpoolId, Spool>) {
    && (forall i | 0 <= i < |order| :: order[i] in db)
    && (forall id | id in db :: id in order)
    && (forall i, j | 0 <= i < j < |order| :: order[i] != order[j])
  }

  /** No two spools on one gate and none half assigned. */
  predicate Sound(db: map<SpoolId, Spool>) {
    && (forall id | id in db :: !HalfAssigned(db[id]))
    && (forall a, b | a in db && b in db && a != b :: Assigned(db[a]) ==> !SamePlace(db[a], db[b]))
  }

  lemma FixedRecord(db: map<SpoolId, Spool>, order: seq<SpoolId>, k: nat)
    requires Lists(order, db) && k < |order|
    ensures order[k] in ToFix(db, order) <==> NeedsFix(db, order, k)
  {
    if order[k] in ToFix(db, order) {
      var j :| 0 <= j < |order| && NeedsFix(db, order, j) && order[j] == order[k];
      assert j == k;
    }
  }

  /** The database once the spools of a set have been taken off. */
  function TakenOff(db: map<SpoolId, Spool>, ids: set<SpoolId>): map<SpoolId, Spool> {
    map id | id in db :: if id in ids then Spool("", -1, db[id].uids) else db[id]
  }

  lemma FixedSound(db: map<SpoolId, Spool>, order: seq<SpoolId>)
    requires Lists(order, db)
    ensures Sound(TakenOff(db, ToFix(db, order)))
  {
    var after := TakenOff(db, ToFix(db, order));
    forall id | id in db ensures !HalfAssigned(after[id]) {
      var k :| 0 <= k < |order| && order[k] == id;
      FixedRecord(db, order, k);
    }
    forall a, b | a in db && b in db && a != b && Assigned(after[a]) ensures !SamePlace(after[a], after[b]) {
      var i :| 0 <= i < |order| && order[i] == a;
      var j :| 0 <= j < |order| && order[j] == b;
      FixedRecord(db, order, i);
      FixedRecord(db, order, j);
    }
  }

  lemma RefreshTakesOff(s: State, order: seq<SpoolId>)
    requires Lists(order, s.db)
    ensures
      var after := Refreshed(s, Some(order), true, {});
      after.db == TakenOff(s.db, ToFix(s.db, order)) && Mirrors(after) && after.cache.Keys == s.db.Keys
  {
    var built := Built(s, order);
    var fix := ToFix(s.db, order);
    BuiltMirrors(s, order);
    assert fix <= s.db.Keys;
    NowhereTakesOff(built, fix);
    PatchedMirrors(built, Nowhere(fix), {});
    assert Refreshed(s, Some(order), true, {}) == Patched(built, Nowhere(fix), {});
  }

  lemma BuiltMirrors(s: State, order: seq<SpoolId>)
    requires Lists(order, s.db)
    ensures Mirrors(Built(s, order)) && Built(s, order).cache.Keys == s.db.Keys && Built(s, order).db == s.db
  {
  }

  lemma NowhereTakesOff(s: State, ids: set<SpoolId>)
    requires ids <= s.cache.Keys
    ensures Patched(s, Nowhere(ids), {}).db == TakenOff(s.db, ids)
    ensures Patched(s, Nowhere(ids), {}).cache.Keys == s.cache.Keys
  {
  }

  /** A refresh with `fix` and no failing request leaves a sound database, mirrored by the cache: exactly the half
      assigned spools and those listed after another one at the same gate are taken off, so each gate keeps the first
      of its spools. */
  lemma RefreshFixes(s: State, order: seq<SpoolId>)
    requires Lists(order, s.db)
    ensures
      var after := Refreshed(s, Some(order), true, {});
      && Sound(after.db) && Mirrors(after) && after.cache.Keys == after.db.Keys == s.db.Keys
      && (forall k | 0 <= k < |order| ::
            after.db[order[k]] == if NeedsFix(s.db, order, k) then Spool("", -1, s.db[order[k]].uids)
                                  else s.db[order[k]])
      && (forall id | id in s.db && Assigned(s.db[id]) :: GateKept(s.db, after.db, id))
  {
    var after := Refreshed(s, Some(order), true, {});
    RefreshTakesOff(s, order);
    FixedSound(s.db, order);
    forall k | 0 <= k < |order|
      ensures after.db[order[k]] == if NeedsFix(s.db, order, k) then Spool("", -1, s.db[order[k]].uids)
                                    else s.db[order[k]]
    {
      FixedRecord(s.db, order, k);
    }
    forall id | id in s.db && Assigned(s.db[id]) ensures GateKept(s.db, after.db, id) {
      var k :| 0 <= k < |order| && order[k] == id;
      var keeper := Keeper(s.db, order, k);
      FixedRecord(s.db, order, keeper);
      assert order[keeper] in s.db;
    }
  }

  /** Some spool at the place of this one is untouched. */
  ghost predicate GateKept(before: map<SpoolId, Spool>, after: map<SpoolId, Spool>, id: SpoolId)
    requires id in before && after.Keys == before.Keys
  {
    exists keeper | keeper in before :: SamePlace(before[keeper], before[id]) && after[keeper] == before[keeper]
  }

  /** The first spool listed at the same place. */
  lemma {:induction false} Keeper(db: map<SpoolId, Spool>, order: seq<SpoolId>, k: nat) returns (keeper: nat)
    requires forall i | 0 <= i < |order| :: order[i] in db
    requires k < |order| && Assigned(db[order[k]])
    ensures keeper <= k && SamePlace(db[order[keeper]], db[order[k]]) && !NeedsFix(db, order, keeper)
  {
    keeper := k;
    if exists j | 0 <= j < k :: SamePlace(db[order[j]], db[order[k]]) {
      var j :| 0 <= j < k && SamePlace(db[order[j]], db[order[k]]);
      keeper := Keeper(db, order, j);
    }
  }
}
