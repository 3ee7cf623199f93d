/**
A revealed thread never reaches the client ahead of its parent
(crates/bonfire/src/events/impl.rs:464-508, 545-568, 771-801).
*/
module ParentsFirst {
  import opened Sequences
  import opened Subscriptions
  import opened Connection
  import opened Announcements
  import opened Told
  import opened Recalculation

  ghost predicate CreatesThread(e: Event) { e.ChannelCreate? && e.channel.Thread? }

  /** Wherever a thread is created, the client knows its parent at that point of the replay. */
  ghost predicate InOrder(told: set<Id>, self: Id, home: Homes, v: seq<Event>)
  {
    forall i :: 0 <= i < |v| && CreatesThread(v[i]) ==> v[i].channel.parent in ReplayAll(told, self, home, v[..i])
  }

  /** The server lists the parents of its cached threads, and lists no thread. */
  ghost predicate ParentsListed(conn: Conn, id: Id, rows: map<Id, Channel>)
  {
    id in conn.cache.servers &&
    (forall c :: BelongsTo(conn.cache, id, c) && conn.cache.channels[c].Thread? ==>
      conn.cache.channels[c].parent in conn.cache.servers[id].channels) &&
    (forall c :: c in conn.cache.servers[id].channels && c in rows ==> rows[c].ServerChannel?)
  }

  /** The revealed events of a recalculation: top-level channels first, every thread from a stored row. */
  lemma RevealedSplit(conn: Conn, env: Env, id: Id, rows: map<Id, Channel>, told: set<Id>, home: Homes)
      returns (tops: seq<Event>, threads: seq<Event>)
    requires Settled(conn, env, id, rows, told, home)
    ensures Reveal(conn, env.db, SortedOf(conn, env, id).revealed).events == tops + threads
    ensures forall e :: e in tops ==> e.ChannelCreate? && !e.channel.Thread?
    ensures forall e :: e in threads ==>
      CreatesThread(e) && e.id in SortedOf(conn, env, id).revealed && Get(rows, e.id) == Some(e.channel)
    ensures forall c :: c in SortedOf(conn, env, id).revealed && c in rows && !rows[c].Thread? ==> c in CreatedIds(tops)
  {
    var ids := SortedOf(conn, env, id).revealed;
    tops, threads := [], [];
    if ids != [] {
      RecalculateParts(conn, env, id);
      FreshAreStored(env.db, rows, ids);
      var stored := FreshRows(env.db, ids).value;
      RevealSummary(conn, env.db, stored, ids);
      var r := RevealAll(Revealing(conn, stored, [], []), env.db, ids);
      tops, threads := r.tops, r.threads;
      SettledReveal(conn, env, id, rows, told, home);
      CreatedIdsConcat(tops, threads);
      forall c | c in ids && c in rows && !rows[c].Thread? ensures c in CreatedIds(tops) { }
    }
  }

  /** The parent of a revealed thread is told and stays so, or is adopted, or is a revealed top-level channel. */
  lemma ParentIsKnown(conn: Conn, env: Env, id: Id, rows: map<Id, Channel>, told: set<Id>, home: Homes, c: Id)
    requires Settled(conn, env, id, rows, told, home) && ParentsListed(conn, id, rows)
    requires c in SortedOf(conn, env, id).revealed && c in rows && rows[c].Thread?
    ensures var p := rows[c].parent;
      (p in told && p !in SortedOf(conn, env, id).hidden) || p in RowIds(Adopted(conn, env, id)) ||
      (p in SortedOf(conn, env, id).revealed && p in rows && !rows[p].Thread?)
  {
    RecalculateParts(conn, env, id);
    assert AgreesOn(conn.cache, env.db, id, rows, c);
    ViewIsStored(conn.cache, env.db, id, rows, c, conn.cache.channels[c]);
    var p := rows[c].parent;
    assert ServerConforms(home, id, conn.cache.servers[id]);
    SettledAdopted(conn, env, id, rows, told, home);
    if p in Prior(conn, env, id) {
      assert AgreesOn(conn.cache, env.db, id, rows, p);
      ViewIsStored(conn.cache, env.db, id, rows, p, conn.cache.channels[p]);
    }
  }

  /** Deletions, adopted channels, revealed channels, revealed threads: in this order parents come first. */
  lemma PartsInOrder(told: set<Id>, self: Id, home: Homes, gone: seq<Id>, adds: seq<Event>, tops: seq<Event>,
                     threads: seq<Event>)
    requires AllCreates(adds) && AllCreates(tops) && forall e :: e in adds || e in tops ==> !CreatesThread(e)
    requires forall e :: e in threads ==>
      CreatesThread(e) && e.channel.parent in told - IdSet(gone) + CreatedIds(adds) + CreatedIds(tops)
    ensures InOrder(told, self, home, Deletes(gone) + adds + (tops + threads))
  {
    var v := Deletes(gone) + adds + (tops + threads);
    var base := |gone| + |adds| + |tops|;
    forall i | 0 <= i < |v| && CreatesThread(v[i])
      ensures v[i].channel.parent in ReplayAll(told, self, home, v[..i])
    {
      var k := i - base;
      assert v[i] == threads[k] && threads[k] in threads;
      assert v[..i] == Deletes(gone) + adds + (tops + threads[..k]);
      forall e | e in threads[..k] ensures e.ChannelCreate? { assert e in threads; }
      assert AllCreates(tops + threads[..k]);
      ReplayBulk(told, self, home, gone, adds, tops + threads[..k]);
      CreatedIdsConcat(tops, threads[..k]);
    }
  }

  /** In every Bulk of a recalculation the client knows a thread's parent when the thread arrives. */
  lemma RecalculationInOrder(conn: Conn, env: Env, id: Id, rows: map<Id, Channel>, told: set<Id>, self: Id, home: Homes)
    requires Settled(conn, env, id, rows, told, home) && ParentsListed(conn, id, rows)
    ensures InOrder(told, self, home, RecalculateBulk(conn, env, id).events)
  {
    var adopted, gone := Adopted(conn, env, id), SortedOf(conn, env, id).hidden;
    var tops, threads := RevealedSplit(conn, env, id, rows, told, home);
    RecalculateShape(conn, env, id);
    CreatedIdsOfRows(adopted);
    AdoptedAreTops(conn, env, id, rows, told, home);
    forall e | e in threads
      ensures e.channel.parent in told - IdSet(gone) + CreatedIds(Creates(adopted)) + CreatedIds(tops)
    {
      ParentIsKnown(conn, env, id, rows, told, home, e.id);
    }
    PartsInOrder(told, self, home, gone, Creates(adopted), tops, threads);
  }

  lemma AdoptedAreTops(conn: Conn, env: Env, id: Id, rows: map<Id, Channel>, told: set<Id>, home: Homes)
    requires Settled(conn, env, id, rows, told, home) && ParentsListed(conn, id, rows)
    ensures forall e :: e in Creates(Adopted(conn, env, id)) ==> !CreatesThread(e)
  {
    var adopted := Adopted(conn, env, id);
    SettledAdopted(conn, env, id, rows, told, home);
    forall e | e in Creates(adopted) ensures !CreatesThread(e) {
      var i :| 0 <= i < |adopted| && Creates(adopted)[i] == e;
      assert adopted[i] in adopted && adopted[i].id in RowIds(adopted);
    }
  }

  // ----- ChannelUpdate -----

  /** A stored thread keeps its parent, and a thread lives in its parent's server. */
  ghost predicate ThreadsStable(conn: Conn, db: Db, home: Homes)
  {
    (forall c :: c in conn.cache.channels && conn.cache.channels[c].Thread? ==>
      home(conn.cache.channels[c].parent) == home(c)) &&
    (forall ids, row :: db.fetchMany(ids).Rows? && row in db.fetchMany(ids).rows ==>
      StableRow(conn, row.id, row.channel)) &&
    (forall c :: db.fetchOne(c).Some? ==> StableRow(conn, c, db.fetchOne(c).value))
  }

  ghost predicate StableRow(conn: Conn, c: Id, ch: Channel)
  {
    c in conn.cache.channels && conn.cache.channels[c].Thread? && ch.Thread? ==>
      ch.parent == conn.cache.channels[c].parent
  }

  /** Rows read again for the children of `id` are still its children. */
  lemma FreshChildren(conn: Conn, db: Db, home: Homes, order: seq<Id>, id: Id, ids: seq<Id>, c: Id)
    requires ThreadsStable(conn, db, home)
    requires forall x :: x in ids ==> x in ChildrenOf(conn.cache, order, id)
    requires c in ids && FreshRows(db, ids).Some? && c in FreshRows(db, ids).value
    ensures var ch := FreshRows(db, ids).value[c]; ch.Thread? ==> ch.parent == id
  {
    var wanted := set x | x in ids;
    if db.fetchMany(wanted).Rows? {
      var rows := db.fetchMany(wanted).rows;
      assert Row(c, RowMap(rows)[c]) in rows;
      assert StableRow(conn, c, RowMap(rows)[c]);
    } else {
      assert StableRow(conn, c, db.fetchOne(c).value);
    }
  }

  /** The event a ChannelUpdate's tail builds: the parent's own, alone or ahead of the threads'. */
  lemma PropagatedEvent(conn: Conn, db: Db, held: set<Topic>, children: seq<Id>, parentEvent: Event)
      returns (gone: seq<Id>, shown: seq<Event>)
    ensures var p := Propagate(conn, db, held, children, parentEvent);
      p.event == parentEvent || p.event == Bulk([parentEvent] + (Deletes(gone) + shown))
    ensures exists c :: shown == Reveal(c, db, NewlyVisible(conn.cache, db, held, children)).events
    ensures forall c :: c in gone ==> c in children
  {
    SweepSummary(conn, db, held, children);
    var swept := SweepAll(Sweep(conn, [], []), db, held, children);
    gone := NewlyHidden(conn.cache, db, held, children);
    shown := Reveal(swept.conn, db, swept.revealed).events;
  }

  lemma RevealedAreChildren(start: Conn, conn: Conn, db: Db, home: Homes, order: seq<Id>, id: Id, ids: seq<Id>)
    requires ThreadsStable(start, db, home) && NoDup(ids)
    requires forall x :: x in ids ==> x in ChildrenOf(start.cache, order, id)
    ensures forall e :: e in Reveal(conn, db, ids).events && CreatesThread(e) ==> e.channel.parent == id
  {
    RevealGives(conn, db, ids);
    forall e | e in Reveal(conn, db, ids).events && CreatesThread(e) ensures e.channel.parent == id {
      FreshChildren(start, db, home, order, id, ids, e.id);
    }
  }

  /** After the parent's event come deletions, then creations; a parent that is not deleted stays known. */
  lemma TailInOrder(told: set<Id>, self: Id, home: Homes, parentEvent: Event, gone: seq<Id>, shown: seq<Event>, id: Id)
    requires AllCreates(shown)
    ensures var v := [parentEvent] + (Deletes(gone) + shown);
      forall i :: 1 <= i < |v| && CreatesThread(v[i]) ==>
        v[i] in shown &&
        (id !in gone && id in Replay(told, self, home, parentEvent) ==> id in ReplayAll(told, self, home, v[..i]))
  {
    var v := [parentEvent] + (Deletes(gone) + shown);
    forall i | 1 <= i < |v| && CreatesThread(v[i])
      ensures v[i] in shown
      ensures id !in gone && id in Replay(told, self, home, parentEvent) ==> id in ReplayAll(told, self, home, v[..i])
    {
      var k := i - 1 - |gone|;
      assert v[i] == shown[k];
      assert v[..i] == [parentEvent] + (Deletes(gone) + shown[..k]);
      var after := Replay(told, self, home, parentEvent);
      ReplayFirst(told, self, home, parentEvent, Deletes(gone) + shown[..k]);
      ReplayConcat(after, self, home, Deletes(gone), shown[..k]);
      ReplayDeletes(after, self, home, gone);
      ReplayCreates(after - IdSet(gone), self, home, shown[..k]);
    }
  }

  /** What `Propagate` appends after the parent's event creates only revealed children of a parent still known. */
  lemma PropagatedChildren(start: Conn, conn: Conn, db: Db, order: seq<Id>, held: set<Topic>, id: Id,
                           parentEvent: Event,
                           told: set<Id>, self: Id, home: Homes)
    requires ThreadsStable(start, db, home) && NoDup(order) && !parentEvent.Bulk?
    requires id !in ChildrenOf(start.cache, order, id) && id in Replay(told, self, home, parentEvent)
    ensures var children := ChildrenOf(start.cache, order, id);
      var event := Propagate(conn, db, held, children, parentEvent).event;
      event.Bulk? ==> TailKnows(event.v, id, told, self, home)
  {
    var children := ChildrenOf(start.cache, order, id);
    var gone, shown := PropagatedEvent(conn, db, held, children, parentEvent);
    var ids := NewlyVisible(conn.cache, db, held, children);
    var c :| shown == Reveal(c, db, ids).events;
    RevealedAreChildren(start, c, db, home, order, id, ids);
    RevealGives(c, db, ids);
    TailInOrder(told, self, home, parentEvent, gone, shown, id);
  }

  /** Every thread created after the first event is a child of `id`, which the client knows by then. */
  ghost predicate TailKnows(v: seq<Event>, id: Id, told: set<Id>, self: Id, home: Homes)
  {
    forall i :: 1 <= i < |v| && CreatesThread(v[i]) ==>
      v[i].channel.parent == id && id in ReplayAll(told, self, home, v[..i])
  }

  /** Without a newly visible child the tail creates nothing. */
  lemma NothingPropagated(conn: Conn, db: Db, held: set<Topic>, children: seq<Id>, parentEvent: Event, id: Id,
                          told: set<Id>, self: Id, home: Homes)
    requires NewlyVisible(conn.cache, db, held, children) == [] && !parentEvent.Bulk?
    ensures var event := Propagate(conn, db, held, children, parentEvent).event;
      event.Bulk? ==> TailKnows(event.v, id, told, self, home)
  {
    var gone, shown := PropagatedEvent(conn, db, held, children, parentEvent);
    assert shown == [];
    TailInOrder(told, self, home, parentEvent, gone, shown, id);
  }

  /** A thread of `id` passes the check only if `id` itself does. */
  lemma ChildSeenOnlyWithParent(start: Conn, conn: Conn, db: Db, home: Homes, id: Id, c: Id)
    requires ThreadsStable(start, db, home)
    requires ChildOf(start.cache, id, c) && ServerOf(start.cache.channels[c]) == home(c)
    requires id in conn.cache.channels && ServerOf(conn.cache.channels[id]) == home(id)
    requires c in conn.cache.channels && c != id && conn.cache.channels[c] == start.cache.channels[c]
    requires Visible(conn.cache, db, c)
    ensures conn.cache.channels[id].ServerChannel? && CanView(conn.cache, db, conn.cache.channels[id])
  {
  }

  /**
  In every Bulk a ChannelUpdate turns into, the threads created after the first event
  are children of the updated channel, and the client knows that channel when they arrive.
  */
  lemma ChannelUpdateInOrder(conn: Conn, env: Env, id: Id, patch: Content -> Content,
                             told: set<Id>, self: Id, home: Homes)
    requires Synced(conn, told, home) && DbConforms(home, env.db) && NoDup(env.order)
    requires ThreadsStable(conn, env.db, home)
    ensures var sent := OnChannelUpdate(conn, env, id, patch).sent;
      sent.Some? && sent.value.Bulk? ==> TailKnows(sent.value.v, id, told, self, home)
  {
    var db, held := env.db, conn.subs.subscribed;
    var children := ChildrenOf(conn.cache, env.order, id);
    var updated := Updated(conn, db, id, patch);
    UpdatedSynced(conn, db, id, patch, told, home);
    if id in updated.cache.channels {
      var ch := updated.cache.channels[id];
      var canView, couldView := CanView(updated.cache, db, ch), CouldView(conn, db, id);
      if canView && id in conn.cache.channels { UpdatedNotOwnChild(conn, env, id, patch); }
      if canView && !couldView && id in conn.cache.channels {
        var revealed := Reveal(updated, db, [id]);
        RevealOne(updated, db, id);
        if revealed.events != [] {
          PropagatedChildren(conn, revealed.conn, db, env.order, held, id, revealed.events[0], told, self, home);
        }
      } else if canView && !couldView {
        PropagatedChildren(conn, updated, db, env.order, held, id, ChannelCreate(id, ch), told, self, home);
      } else {
        var event := if couldView && !canView then ChannelDelete(id) else ChannelUpdate(id, patch);
        if id !in told || !canView {
          NothingRevealed(conn, updated, env, id, patch, told, home);
          NothingPropagated(updated, db, held, children, event, id, told, self, home);
        } else {
          PropagatedChildren(conn, updated, db, env.order, held, id, event, told, self, home);
        }
      }
    }
  }

  /** If the updated channel is not viewable, or is viewable but not told (a direct channel), no child is revealed. */
  lemma NothingRevealed(conn: Conn, updated: Conn, env: Env, id: Id, patch: Content -> Content,
                        told: set<Id>, home: Homes)
    requires Synced(conn, told, home) && ThreadsStable(conn, env.db, home)
    requires updated == Updated(conn, env.db, id, patch) && Synced(updated, told, home) && id in updated.cache.channels
    requires var canView := CanView(updated.cache, env.db, updated.cache.channels[id]);
      (canView ==> CouldView(conn, env.db, id)) && (id !in told || !canView)
    ensures NewlyVisible(updated.cache, env.db, conn.subs.subscribed, ChildrenOf(conn.cache, env.order, id)) == []
  {
    var children := ChildrenOf(conn.cache, env.order, id);
    var shown := NewlyVisible(updated.cache, env.db, conn.subs.subscribed, children);
    forall c ensures c !in shown {
      if c in children && c != id && Visible(updated.cache, env.db, c) {
        ChildSeenOnlyWithParent(conn, updated, env.db, home, id, c);
      }
    }
    EmptyOrHolds(shown);
  }
}
