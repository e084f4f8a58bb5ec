/** Pruning of stored recordings: the object goes first, the row's key second, and any call can
    fail or be the last one before a crash. */
module SessionCleanup {
  import opened Wrappers

  type Id = int
  type Key = int

  datatype Row = Row(endedAt: Option<int>, key: Option<Key>)

  /** The session table, and the keys under which the object store holds something. */
  datatype State = State(rows: map<Id, Row>, objects: set<Key>)

  datatype Item = Item(id: Id, key: Key)

  /** What happens to one item. `reached`: the store carried the deletion out, or said that there
      is no such object, which counts as the same. If not, it may have taken effect all the same
      (`took`). `updated`: the row's key was nulled after that; it is false too when the process
      dies in between. */
  datatype Reply = Reply(reached: bool, took: bool, updated: bool)

  predicate Expired(r: Row, cutoff: int) {
    r.key.Some? && r.endedAt.Some? && r.endedAt.value < cutoff
  }

  function Delete(s: State, k: Key): State { s.(objects := s.objects - {k}) }

  function NullKey(s: State, id: Id): State {
    if id in s.rows then s.(rows := s.rows[id := s.rows[id].(key := None)]) else s
  }

  function PruneOne(s: State, it: Item, r: Reply): State {
    var t := if r.reached || r.took then Delete(s, it.key) else s;
    if r.reached && r.updated then NullKey(t, it.id) else t
  }

  /** A pass, or as much of it as a crash leaves: any items, with any replies. */
  function PruneAll(s: State, items: seq<Item>, replies: seq<Reply>): State
    requires |items| == |replies|
    decreases |items|
  {
    if items == [] then s
    else
      var n := |items| - 1;
      PruneOne(PruneAll(s, items[..n], replies[..n]), items[n], replies[n])
  }

  /** Items of a snapshot of the expired rows. */
  ghost predicate Snapshot(items: seq<Item>, s: State, cutoff: int) {
    forall it <- items :: it.id in s.rows && Expired(s.rows[it.id], cutoff) && s.rows[it.id].key == Some(it.key)
  }

  /** The whole of it: what `findMany` returns. */
  ghost predicate Complete(items: seq<Item>, s: State, cutoff: int) {
    && Snapshot(items, s, cutoff)
    && forall id <- s.rows :: Expired(s.rows[id], cutoff) ==> Item(id, s.rows[id].key.value) in items
  }

  // ---------------------------------------------------------------- what a pass amounts to

  function After(s: State, ids: set<Id>, keys: set<Key>): State {
    State(map id | id in s.rows :: if id in ids then s.rows[id].(key := None) else s.rows[id], s.objects - keys)
  }

  function Nulled(items: seq<Item>, replies: seq<Reply>): set<Id>
    requires |items| == |replies|
  {
    set i | 0 <= i < |items| && replies[i].reached && replies[i].updated :: items[i].id
  }

  function Deleted(items: seq<Item>, replies: seq<Reply>): set<Key>
    requires |items| == |replies|
  {
    set i | 0 <= i < |items| && (replies[i].reached || replies[i].took) :: items[i].key
  }

  lemma {:induction false} PruneAllIs(s: State, items: seq<Item>, replies: seq<Reply>)
    requires |items| == |replies|
    ensures PruneAll(s, items, replies) == After(s, Nulled(items, replies), Deleted(items, replies))
    decreases |items|
  {
    if items == [] {
      assert After(s, {}, {}).rows == s.rows;
    } else {
      hide Nulled, Deleted, PruneOne;
      var n := |items| - 1;
      PruneAllIs(s, items[..n], replies[..n]);
      SetsGrow(items, replies);
      OneMore(s, Nulled(items[..n], replies[..n]), Deleted(items[..n], replies[..n]), items[n], replies[n]);
    }
  }

  lemma SetsGrow(items: seq<Item>, replies: seq<Reply>)
    requires |items| == |replies| > 0
    ensures var n := |items| - 1;
            && Nulled(items, replies) == Nulled(items[..n], replies[..n])
                 + (if replies[n].reached && replies[n].updated then {items[n].id} else {})
            && Deleted(items, replies) == Deleted(items[..n], replies[..n])
                 + (if replies[n].reached || replies[n].took then {items[n].key} else {})
  {
    var n := |items| - 1;
    forall id | id in Nulled(items, replies)
      ensures id in Nulled(items[..n], replies[..n])
              || (replies[n].reached && replies[n].updated && id == items[n].id)
    {
      var i :| 0 <= i < |items| && replies[i].reached && replies[i].updated && items[i].id == id;
      if i < n {
        assert items[..n][i] == items[i] && replies[..n][i] == replies[i];
      }
    }
    forall k | k in Deleted(items, replies)
      ensures k in Deleted(items[..n], replies[..n])
              || ((replies[n].reached || replies[n].took) && k == items[n].key)
    {
      var i :| 0 <= i < |items| && (replies[i].reached || replies[i].took) && items[i].key == k;
      if i < n {
        assert items[..n][i] == items[i] && replies[..n][i] == replies[i];
      }
    }
  }

  lemma OneMore(s: State, ids: set<Id>, keys: set<Key>, it: Item, r: Reply)
    ensures PruneOne(After(s, ids, keys), it, r)
            == After(s, ids + (if r.reached && r.updated then {it.id} else {}),
                     keys + (if r.reached || r.took then {it.key} else {}))
  {
    var t := PruneOne(After(s, ids, keys), it, r);
    var u := After(s, ids + (if r.reached && r.updated then {it.id} else {}),
                   keys + (if r.reached || r.took then {it.key} else {}));
    assert t.rows == u.rows;
    assert t.objects == u.objects;
  }

  lemma NulledAreDeleted(s: State, cutoff: int, items: seq<Item>, replies: seq<Reply>)
    requires Snapshot(items, s, cutoff) && |items| == |replies|
    ensures forall id <- Nulled(items, replies) ::
              id in s.rows && Expired(s.rows[id], cutoff) && s.rows[id].key.value in Deleted(items, replies)
    ensures Deleted(items, replies) <= ExpiredKeys(s, cutoff)
  {
    forall i | 0 <= i < |items|
      ensures items[i].id in s.rows && Expired(s.rows[items[i].id], cutoff)
              && s.rows[items[i].id].key == Some(items[i].key) && items[i].key in ExpiredKeys(s, cutoff)
    {
      assert items[i] in items;
    }
    forall id | id in Nulled(items, replies)
      ensures id in s.rows && Expired(s.rows[id], cutoff) && s.rows[id].key.value in Deleted(items, replies)
    {
      var i :| 0 <= i < |items| && replies[i].reached && replies[i].updated && items[i].id == id;
      assert items[i].key in Deleted(items, replies);
    }
  }

  // ---------------------------------------------------------------- crash consistency

  /** Every stored object is referenced by some row. */
  ghost predicate Referenced(s: State) {
    forall k <- s.objects :: exists id :: id in s.rows && s.rows[id].key == Some(k)
  }

  /** No object is ever orphaned: after any part of a pass, whichever calls fail and wherever it
      crashes, every stored object is still referenced; rows that are not expired are as they
      were, and expired ones lost nothing but their key. */
  lemma NothingIsOrphaned(s: State, cutoff: int, items: seq<Item>, replies: seq<Reply>)
    requires Referenced(s) && Snapshot(items, s, cutoff) && |items| == |replies|
    ensures var t := PruneAll(s, items, replies);
            && Referenced(t)
            && t.rows.Keys == s.rows.Keys
            && forall id <- s.rows ::
                 t.rows[id] == s.rows[id]
                 || (Expired(s.rows[id], cutoff) && t.rows[id] == s.rows[id].(key := None))
  {
    PruneAllIs(s, items, replies);
    NulledAreDeleted(s, cutoff, items, replies);
    var t := PruneAll(s, items, replies);
    forall k | k in t.objects
      ensures exists id :: id in t.rows && t.rows[id].key == Some(k)
    {
      var id :| id in s.rows && s.rows[id].key == Some(k);
      assert t.rows[id].key == Some(k);
    }
  }

  /** The order of the two calls is what this rests on: with the row first, a crash before the
      deletion orphans the object, unless there is none or another row has the same key. */
  lemma RowFirstOrphansIff(s: State, id: Id)
    requires Referenced(s) && id in s.rows && s.rows[id].key.Some?
    ensures var k := s.rows[id].key.value;
            Referenced(NullKey(s, id))
            <==> k !in s.objects || exists other :: other in s.rows && other != id && s.rows[other].key == Some(k)
  {
    var k := s.rows[id].key.value;
    var t := NullKey(s, id);
    forall other | other in s.rows && other != id
      ensures t.rows[other] == s.rows[other]
    {
    }
    forall l | l in s.objects && l != k
      ensures exists other :: other in t.rows && t.rows[other].key == Some(l)
    {
      var other :| other in s.rows && s.rows[other].key == Some(l);
      assert t.rows[other].key == Some(l);
    }
    if k in s.objects && Referenced(t) {
      var other :| other in t.rows && t.rows[other].key == Some(k);
      assert other != id && s.rows[other].key == Some(k);
    }
  }

  // ---------------------------------------------------------------- a fault-free pass

  function ExpiredIds(s: State, cutoff: int): set<Id> { set id | id in s.rows && Expired(s.rows[id], cutoff) }

  function ExpiredKeys(s: State, cutoff: int): set<Key> {
    set id | id in s.rows && Expired(s.rows[id], cutoff) :: s.rows[id].key.value
  }

  function Pruned(s: State, cutoff: int): State { After(s, ExpiredIds(s, cutoff), ExpiredKeys(s, cutoff)) }

  ghost predicate AllClean(replies: seq<Reply>) { forall r <- replies :: r.reached && r.updated }

  /** A fault-free pass nulls exactly the rows that ended before the cutoff and had a recording,
      deletes exactly their objects, and touches nothing else. */
  lemma CleanPassIs(s: State, cutoff: int, items: seq<Item>, replies: seq<Reply>)
    requires Complete(items, s, cutoff) && |items| == |replies| && AllClean(replies)
    ensures PruneAll(s, items, replies) == Pruned(s, cutoff)
  {
    hide PruneAll, After, Expired;
    PruneAllIs(s, items, replies);
    NulledAreDeleted(s, cutoff, items, replies);
    forall id | id in ExpiredIds(s, cutoff)
      ensures id in Nulled(items, replies) && s.rows[id].key.value in Deleted(items, replies)
    {
      CleanReaches(s, cutoff, items, replies, id);
    }
    assert Nulled(items, replies) == ExpiredIds(s, cutoff);
    assert Deleted(items, replies) == ExpiredKeys(s, cutoff);
  }

  lemma CleanReaches(s: State, cutoff: int, items: seq<Item>, replies: seq<Reply>, id: Id)
    requires Complete(items, s, cutoff) && |items| == |replies| && AllClean(replies)
    requires id in s.rows && Expired(s.rows[id], cutoff)
    ensures id in Nulled(items, replies) && s.rows[id].key.value in Deleted(items, replies)
  {
    var i :| 0 <= i < |items| && items[i] == Item(id, s.rows[id].key.value);
    assert replies[i] in replies;
  }

  function Cutoff(now: int, days: int): int { now - days * 24 * 60 * 60 * 1000 }

  /** The session ended more than so many days ago; times are in milliseconds. */
  predicate LongOver(r: Row, now: int, days: int) { r.endedAt.Some? && now - r.endedAt.value > 86400000 * days }

  /** The retention, session by session: after a fault-free pass a session has lost its recording if
      and only if it ended more than `days` days ago - one still running never does -, and an
      object is gone if and only if such a session had its key. */
  lemma RetentionIs(s: State, now: int, days: int, items: seq<Item>, replies: seq<Reply>)
    requires Complete(items, s, Cutoff(now, days)) && |items| == |replies| && AllClean(replies)
    ensures var t := PruneAll(s, items, replies);
            && t.rows.Keys == s.rows.Keys
            && (forall id <- s.rows ::
                  t.rows[id] == if LongOver(s.rows[id], now, days) then s.rows[id].(key := None) else s.rows[id])
            && (forall k :: k in t.objects <==>
                  && k in s.objects
                  && forall id <- s.rows :: LongOver(s.rows[id], now, days) ==> s.rows[id].key != Some(k))
  {
    CleanPassIs(s, Cutoff(now, days), items, replies);
  }

  /** A row that is not expired keeps its recording exactly when no expired row has the same key. */
  lemma YoungRecordingStaysIff(s: State, cutoff: int, id: Id)
    requires id in s.rows && s.rows[id].key.Some? && !Expired(s.rows[id], cutoff)
    requires s.rows[id].key.value in s.objects
    ensures var k := s.rows[id].key.value;
            && Pruned(s, cutoff).rows[id] == s.rows[id]
            && (k in Pruned(s, cutoff).objects
                <==> forall other <- s.rows :: Expired(s.rows[other], cutoff) ==> s.rows[other].key != Some(k))
  {
  }

  /** A pass that failed or crashed anywhere is made good by a later one: the result is what the
      later pass alone would have left. */
  lemma NextPassHeals(s: State, cutoff: int, items: seq<Item>, replies: seq<Reply>, later: int)
    requires cutoff <= later && Snapshot(items, s, cutoff) && |items| == |replies|
    ensures Pruned(PruneAll(s, items, replies), later) == Pruned(s, later)
  {
    PruneAllIs(s, items, replies);
    NulledAreDeleted(s, cutoff, items, replies);
    AfterTwice(s, Nulled(items, replies), Deleted(items, replies), later);
  }

  lemma AfterTwice(s: State, ids: set<Id>, keys: set<Key>, later: int)
    requires ids <= ExpiredIds(s, later) && keys <= ExpiredKeys(s, later)
    requires forall id <- ids :: id in s.rows && s.rows[id].key.Some? && s.rows[id].key.value in keys
    ensures Pruned(After(s, ids, keys), later) == Pruned(s, later)
  {
    var t := After(s, ids, keys);
    forall id | id in s.rows
      ensures id in ExpiredIds(t, later) <==> id in ExpiredIds(s, later) && id !in ids
    {
      assert t.rows[id] == if id in ids then s.rows[id].(key := None) else s.rows[id];
    }
    assert ExpiredIds(t, later) == ExpiredIds(s, later) - ids;
    forall k | k in ExpiredKeys(s, later) && k !in keys
      ensures k in ExpiredKeys(t, later)
    {
      var id :| id in s.rows && Expired(s.rows[id], later) && s.rows[id].key.value == k;
      assert id !in ids && t.rows[id] == s.rows[id];
    }
    forall k | k in ExpiredKeys(t, later)
      ensures k in ExpiredKeys(s, later)
    {
      var id :| id in t.rows && Expired(t.rows[id], later) && t.rows[id].key.value == k;
      assert t.rows[id] == s.rows[id];
    }
    assert Pruned(t, later).objects == Pruned(s, later).objects;
    assert Pruned(t, later).rows == Pruned(s, later).rows;
  }

  // ---------------------------------------------------------------- the job

  class Stores {
    var rows: map<Id, Row>
    var objects: set<Key>

    ghost function Contents(): State
      reads this
    {
      State(rows, objects)
    }

    constructor (rows: map<Id, Row>, objects: set<Key>)
      ensures Contents() == State(rows, objects)
    {
      this.rows, this.objects := rows, objects;
    }

    /** `sessions` is what `findMany` returned; the loop never stops early. */
    method PruneOldStoredRecordings(sessions: seq<Item>, replies: seq<Reply>)
      requires |sessions| == |replies|
      modifies this
      ensures Contents() == PruneAll(old(Contents()), sessions, replies)
    {
      var i := 0;
      while i < |sessions|
        invariant 0 <= i <= |sessions|
        invariant Contents() == PruneAll(old(Contents()), sessions[..i], replies[..i])
      {
        var session, reply := sessions[i], replies[i];
        assert sessions[..i + 1][..i] == sessions[..i] && replies[..i + 1][..i] == replies[..i];
        i := i + 1;
        if reply.reached || reply.took {
          objects := objects - {session.key};
        }
        if !reply.reached {
          continue;
        }
        if reply.updated && session.id in rows {
          rows := rows[session.id := rows[session.id].(key := None)];
        }
      }
      assert sessions[..i] == sessions && replies[..i] == replies;
    }
  }
}
