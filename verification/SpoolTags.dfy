/** The reverse map from tags to spools: when it is the exact inverse of the tags that the spools carry. */
module SpoolTags {
  import opened SpoolState

  /** A spool carries a tag exactly when the reverse map leads from the tag to the spool. So no tag is on two spools. */
  ghost predicate Inverse(s: State) {
    forall u, id :: Carries(s.db, id, u) <==> (u in s.owners && s.owners[u] == id)
  }

  predicate Carries(db: map<SpoolId, Spool>, id: SpoolId, u: Uid) {
    id in db && u in db[id].uids
  }

  lemma NoSharedTag(s: State, a: SpoolId, b: SpoolId, u: Uid)
    requires Inverse(s) && Carries(s.db, a, u) && Carries(s.db, b, u)
    ensures a == b
  {
    assert u in s.owners && s.owners[u] == a;
  }

  // -------------------------------------------------------------------------------------- tagging a spool

  /** The tags of the list that are taken off `owner`. */
  predicate TakenFrom(s: State, id: SpoolId, uids: seq<Uid>, stuck: set<Uid>, owner: SpoolId, u: Uid) {
    u in uids && u !in stuck && Moved(s.owners, id, u) && s.owners[u] == owner
  }

  lemma {:induction false} StrippedCarries(s: State, id: SpoolId, uids: seq<Uid>, stuck: set<Uid>, other: SpoolId,
                                           x: Uid)
    ensures StrippedAll(s, id, uids, stuck).owners == s.owners
    ensures StrippedAll(s, id, uids, stuck).misses == s.misses
    ensures StrippedAll(s, id, uids, stuck).db.Keys == s.db.Keys
    ensures Carries(StrippedAll(s, id, uids, stuck).db, other, x)
            <==> Carries(s.db, other, x) && !TakenFrom(s, id, uids, stuck, other, x)
  {
    if uids != [] {
      var front, last := uids[..|uids| - 1], uids[|uids| - 1];
      assert uids == front + [last];
      StrippedCarries(s, id, front, stuck, other, x);
    }
  }

  /** The spool that is tagged keeps its own tags while others lose theirs. */
  lemma {:induction false} StrippedKeepsOwn(s: State, id: SpoolId, uids: seq<Uid>, stuck: set<Uid>)
    ensures id in s.db ==>
              id in StrippedAll(s, id, uids, stuck).db && StrippedAll(s, id, uids, stuck).db[id] == s.db[id]
  {
    if uids != [] {
      StrippedKeepsOwn(s, id, uids[..|uids| - 1], stuck);
    }
  }

  /** The last request of the command goes through. */
  predicate Writes(s: State, id: SpoolId, fails: bool) {
    !fails && id in s.db
  }

  lemma UnwrittenInverse(s: State, id: SpoolId, uids: seq<Uid>, stuck: set<Uid>)
    requires Inverse(s)
    ensures Inverse(StrippedAll(s, id, uids, stuck)) <==> forall u | u in uids && Moved(s.owners, id, u) :: u in stuck
  {
    var after := StrippedAll(s, id, uids, stuck);
    forall other, x
      ensures after.owners == s.owners
      ensures Carries(after.db, other, x) <==> Carries(s.db, other, x) && !TakenFrom(s, id, uids, stuck, other, x)
    {
      StrippedCarries(s, id, uids, stuck, other, x);
    }
    if u :| u in uids && Moved(s.owners, id, u) && u !in stuck {
      assert TakenFrom(s, id, uids, stuck, s.owners[u], u);
      assert !Carries(after.db, s.owners[u], u);
    }
  }

  lemma WrittenCarries(s: State, id: SpoolId, written: seq<Uid>, uids: seq<Uid>, other: SpoolId, x: Uid)
    requires id in s.db
    ensures Carries(Registered(s, id, written, uids).db, other, x)
            <==> if other == id then x in written else Carries(s.db, other, x)
  {
  }

  lemma WrittenOwns(s: State, id: SpoolId, written: seq<Uid>, uids: seq<Uid>, other: SpoolId, x: Uid)
    requires id in s.db
    ensures
      var owners := Registered(s, id, written, uids).owners;
      x in owners && owners[x] == other
      <==> if x in written then other == id else x in s.owners && s.owners[x] == other && other != id
  {
  }

  lemma WrittenInverse(s: State, id: SpoolId, written: seq<Uid>, uids: seq<Uid>, stuck: set<Uid>)
    requires Inverse(s) && id in s.db
    requires forall u | u in uids :: u in written
    requires forall u | u in written && u !in uids :: u in s.db[id].uids
    ensures
      var stripped := StrippedAll(s, id, uids, stuck);
      && id in stripped.db
      && (Inverse(Registered(stripped, id, written, uids))
          <==> forall u | u in uids && Moved(s.owners, id, u) :: u !in stuck)
  {
    var stripped := StrippedAll(s, id, uids, stuck);
    StrippedKeepsOwn(s, id, uids, stuck);
    var after := Registered(stripped, id, written, uids);
    forall other, x
      ensures Carries(after.db, other, x)
              <==> if other == id then x in written
                   else Carries(s.db, other, x) && !TakenFrom(s, id, uids, stuck, other, x)
      ensures x in after.owners && after.owners[x] == other
              <==> if x in written then other == id else x in s.owners && s.owners[x] == other && other != id
    {
      StrippedCarries(s, id, uids, stuck, other, x);
      WrittenCarries(stripped, id, written, uids, other, x);
      WrittenOwns(stripped, id, written, uids, other, x);
    }
    if forall u | u in uids && Moved(s.owners, id, u) :: u !in stuck {
      forall other, x
        ensures Carries(after.db, other, x) <==> (x in after.owners && after.owners[x] == other)
      {
        assert Carries(s.db, other, x) <==> (x in s.owners && s.owners[x] == other);
        assert Carries(s.db, id, x) <==> (x in s.owners && s.owners[x] == id);
      }
    } else {
      var u :| u in uids && Moved(s.owners, id, u) && u in stuck;
      assert Carries(s.db, s.owners[u], u);
      assert Carries(after.db, s.owners[u], u);
    }
  }

  /** A command is turned down without tags to write, unless the argument was blank and the tags are to be cleared;
      to append, the spool must be there and be read. */
  predicate Acceptable(s: State, id: SpoolId, uids: seq<Uid>, blank: bool, append: bool, unread: bool) {
    if append then uids != [] && id in s.db && !unread else uids != [] || blank
  }

  /** A command is accepted exactly then; otherwise it changes nothing. */
  lemma AcceptedExactly(s: State, id: SpoolId, uids: seq<Uid>, blank: bool, append: bool, unread: bool,
                        stuck: set<Uid>, fails: bool)
    ensures FinalUids(s, id, uids, blank, append, unread).Some? <==> Acceptable(s, id, uids, blank, append, unread)
    ensures !Acceptable(s, id, uids, blank, append, unread) ==>
              SpoolTagged(s, id, uids, blank, append, unread, stuck, fails) == s
  {
  }

  /** Whether the reverse map is exact after a spool was tagged: if the tags were written, exactly when no tag that was
      moved stuck to its old spool; if they were not, exactly when every tag to be moved did. */
  lemma TaggedInverse(s: State, id: SpoolId, uids: seq<Uid>, blank: bool, append: bool, unread: bool,
                      stuck: set<Uid>, fails: bool)
    requires Inverse(s)
    ensures Inverse(SpoolTagged(s, id, uids, blank, append, unread, stuck, fails)) <==>
            || !Acceptable(s, id, uids, blank, append, unread)
            || (forall u | u in uids && Moved(s.owners, id, u) :: u in stuck <==> !Writes(s, id, fails))
  {
    var written := FinalUids(s, id, uids, blank, append, unread);
    if written.Some? {
      StrippedKeepsOwn(s, id, uids, stuck);
      StrippedCarries(s, id, uids, stuck, id, "");
      if Writes(s, id, fails) {
        WrittenInverse(s, id, written.value, uids, stuck);
      } else {
        UnwrittenInverse(s, id, uids, stuck);
      }
    }
  }

  /** What a command that succeeds leaves: the spool carries exactly the tags written, and no other spool any tag of
      the list. */
  lemma TaggedCarries(s: State, id: SpoolId, uids: seq<Uid>, blank: bool, append: bool, unread: bool, u: Uid,
                      other: SpoolId)
    requires Inverse(s) && id in s.db && (if append then uids != [] && !unread else uids != [] || blank)
    ensures
      var after := SpoolTagged(s, id, uids, blank, append, unread, {}, false);
      && (Carries(after.db, id, u) <==> u in uids || (append && Carries(s.db, id, u)))
      && (other != id ==> (Carries(after.db, other, u) <==> Carries(s.db, other, u) && u !in uids))
      && (u in uids ==> u !in after.misses)
  {
    var written := FinalUids(s, id, uids, blank, append, unread).value;
    var stripped := StrippedAll(s, id, uids, {});
    StrippedKeepsOwn(s, id, uids, {});
    StrippedCarries(s, id, uids, {}, other, u);
    WrittenCarries(stripped, id, written, uids, id, u);
    WrittenCarries(stripped, id, written, uids, other, u);
    assert Carries(s.db, other, u) <==> (u in s.owners && s.owners[u] == other);
  }

  /** A tag that is taken off its spool while the last request fails is lost: no spool carries it any more, but the
      reverse map still leads to the old spool. */
  lemma LostTag(s: State, holder: SpoolId, id: SpoolId, uids: seq<Uid>, u: Uid)
    requires Inverse(s) && Carries(s.db, holder, u) && holder != id && u in uids
    ensures
      var after := SpoolTagged(s, id, uids, false, false, false, {}, true);
      && (forall other :: !Carries(after.db, other, u)) && u in after.owners && after.owners[u] == holder
      && !Inverse(after)
  {
    var after := SpoolTagged(s, id, uids, false, false, false, {}, true);
    assert u in s.owners && s.owners[u] == holder && Moved(s.owners, id, u);
    forall other ensures !Carries(after.db, other, u) {
      StrippedCarries(s, id, uids, {}, other, u);
      assert Carries(s.db, other, u) <==> (u in s.owners && s.owners[u] == other);
    }
    StrippedCarries(s, id, uids, {}, holder, u);
    assert !Carries(after.db, holder, u);
  }

  /** Two spools and a tag of the first that is to go to the second. */
  lemma LostTagHere()
    ensures
      var s := State(map[1 := Spool("", -1, ["tag"]), 2 := Spool("", -1, [])], map[], map["tag" := 1], {});
      var after := SpoolTagged(s, 2, ["tag"], false, false, false, {}, true);
      && Inverse(s) && (forall id :: !Carries(after.db, id, "tag")) && "tag" in after.owners && after.owners["tag"] == 1
  {
    var s := State(map[1 := Spool("", -1, ["tag"]), 2 := Spool("", -1, [])], map[], map["tag" := 1], {});
    forall x, id ensures Carries(s.db, id, x) <==> (x in s.owners && s.owners[x] == id) {
    }
    assert Carries(s.db, 1, "tag");
    LostTag(s, 1, 2, ["tag"], "tag");
  }

  // ------------------------------------------------------------------------------------------- other commands

  lemma {:induction false} OwnersOfCarry(db: map<SpoolId, Spool>, order: seq<SpoolId>, u: Uid)
    requires forall i | 0 <= i < |order| :: order[i] in db
    ensures u in OwnersOf(db, order) <==> exists i | 0 <= i < |order| :: u in db[order[i]].uids
    ensures u in OwnersOf(db, order) ==> OwnersOf(db, order)[u] in order && Carries(db, OwnersOf(db, order)[u], u)
  {
    if order != [] {
      var front := order[..|order| - 1];
      OwnersOfCarry(db, front, u);
      assert forall i | 0 <= i < |front| :: front[i] == order[i];
    }
  }

  /** Rebuilding the cache makes the reverse map exact exactly when no tag is on two spools. */
  lemma BuiltInverse(s: State, order: seq<SpoolId>)
    requires Lists(order, s.db)
    ensures Inverse(Built(s, order)) <==>
            forall u, a, b :: Carries(s.db, a, u) && Carries(s.db, b, u) ==> a == b
  {
    var built := Built(s, order);
    forall u
      ensures u in built.owners <==> exists id :: Carries(s.db, id, u)
      ensures u in built.owners ==> Carries(s.db, built.owners[u], u)
    {
      OwnersOfCarry(s.db, order, u);
      if id :| Carries(s.db, id, u) {
        var i :| 0 <= i < |order| && order[i] == id;
      }
    }
    if Inverse(built) {
      forall u, a, b | Carries(s.db, a, u) && Carries(s.db, b, u) ensures a == b {
        NoSharedTag(built, a, b, u);
      }
    } else {
      var u, id :| !(Carries(built.db, id, u) <==> (u in built.owners && built.owners[u] == id));
      assert Carries(s.db, id, u) && Carries(s.db, built.owners[u], u) && built.owners[u] != id;
    }
  }

  lemma PatchedInverse(s: State, updates: map<SpoolId, Place>, failing: set<SpoolId>)
    requires Inverse(s)
    ensures Inverse(Patched(s, updates, failing))
  {
    var after := Patched(s, updates, failing);
    forall u, id ensures Carries(after.db, id, u) <==> (u in after.owners && after.owners[u] == id) {
      assert Carries(s.db, id, u) <==> Carries(after.db, id, u);
    }
  }

  lemma InsertedInverse(s: State, id: SpoolId)
    requires Inverse(s)
    ensures Inverse(Inserted(s, id)) && Inserted(s, id).owners == s.owners
  {
    if id in s.db {
      forall u | u in s.db[id].uids ensures u in s.owners && s.owners[u] == id {
        assert Carries(s.db, id, u);
      }
      assert Inserted(s, id).owners == s.owners;
    }
  }

  /** A command whose requests about tags all succeed and whose refresh, if it is one, reads the whole database. Gate
      requests may fail. */
  predicate Clean(command: Command, ids: set<SpoolId>) {
    match command
    case Refresh(order, _, _) => order.None? || ListsIds(order.value, ids)
    case Tag(id, _, _, _, _, stuck, fails) => id in ids && stuck == {} && !fails
    case _ => true
  }

  predicate ListsIds(order: seq<SpoolId>, ids: set<SpoolId>) {
    && (forall i | 0 <= i < |order| :: order[i] in ids)
    && (forall id | id in ids :: id in order)
    && (forall i, j | 0 <= i < j < |order| :: order[i] != order[j])
  }

  lemma StepInverse(s: State, host: string, gateCount: nat, command: Command)
    requires Inverse(s) && Clean(command, s.db.Keys)
    ensures Inverse(Step(s, host, gateCount, command)) && Step(s, host, gateCount, command).db.Keys == s.db.Keys
  {
    match command
    case Refresh(order, fix, failing) =>
      if order.Some? {
        BuiltInverse(s, order.value);
        forall u, a, b | Carries(s.db, a, u) && Carries(s.db, b, u) ensures a == b {
          NoSharedTag(s, a, b, u);
        }
        PatchedInverse(Built(s, order.value), Nowhere(ToFix(s.db, order.value)), failing);
      }
    case Push(gates, failing) => PatchedInverse(s, PushUpdates(s.cache, host, gateCount, gates), failing);
    case Clear(printer, failing) =>
      PatchedInverse(s, Nowhere(FindAll(s.cache, if printer == "" then host else printer, None)), failing);
    case Set(id, gate, failing) =>
      var target := TargetGate(gate, gateCount);
      if target.Some? {
        PatchedInverse(s, SetUpdates(s.cache, host, target.value, id), failing);
      }
    case Unset(gate, target, failing) =>
      PatchedInverse(s, Nowhere(UnsetTargets(s.cache, host, gate, target)), failing);
    case Tag(id, uids, blank, append, unread, stuck, fails) =>
      TaggedInverse(s, id, uids, blank, append, unread, stuck, fails);
      StrippedCarries(s, id, uids, stuck, id, "");
    case Insert(id) => InsertedInverse(s, id);
  }

  /** Over any run the reverse map stays the exact inverse as long as the requests about tags succeed. */
  lemma {:induction false} RunInverse(s: State, host: string, gateCount: nat, commands: seq<Command>)
    requires Inverse(s) && forall k | 0 <= k < |commands| :: Clean(commands[k], s.db.Keys)
    ensures Inverse(Run(s, host, gateCount, commands))
    decreases |commands|
  {
    if commands != [] {
      StepInverse(s, host, gateCount, commands[0]);
      RunInverse(Step(s, host, gateCount, commands[0]), host, gateCount, commands[1..]);
    }
  }

  /** The tags known for a cached spool. */
  predicate CacheCarries(cache: map<SpoolId, Entry>, id: SpoolId, u: Uid) {
    id in cache && cache[id].uids.Some? && u in cache[id].uids.value
  }

  /** Each tag is on at most one spool, in the database and in the cache, and the reverse map leads to that spool. */
  ghost predicate TagsUnique(s: State) {
    && (forall u, a, b :: Carries(s.db, a, u) && Carries(s.db, b, u) ==> a == b)
    && (forall u, a, b :: CacheCarries(s.cache, a, u) && CacheCarries(s.cache, b, u) ==> a == b)
    && (forall u, id :: CacheCarries(s.cache, id, u) ==> Carries(s.db, id, u) && u in s.owners && s.owners[u] == id)
  }

  /** Over any run with the tag requests succeeding, whatever happens to requests about gates, each tag stays on at most
      one spool in the cache and in the database. */
  lemma RunTagsUnique(s: State, host: string, gateCount: nat, commands: seq<Command>)
    requires Inverse(s) && Mirrors(s) && forall k | 0 <= k < |commands| :: Clean(commands[k], s.db.Keys)
    ensures TagsUnique(Run(s, host, gateCount, commands))
  {
    var after := Run(s, host, gateCount, commands);
    RunInverse(s, host, gateCount, commands);
    RunMirrors(s, host, gateCount, commands);
    forall u, a, b | Carries(after.db, a, u) && Carries(after.db, b, u) ensures a == b {
      NoSharedTag(after, a, b, u);
    }
    forall u, id | CacheCarries(after.cache, id, u)
      ensures Carries(after.db, id, u) && u in after.owners && after.owners[u] == id
    {
      assert Carries(after.db, id, u);
    }
  }
}
