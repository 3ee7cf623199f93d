/**
`recalculate_server` in full (crates/bonfire/src/events/impl.rs:409-510): what it
announces, when it is exact, and that doing it twice changes nothing.
*/
module Recalculation {
  import opened Sequences
  import opened Subscriptions
  import opened Connection
  import opened Announcements
  import opened Told
  import opened Flushing

  // ----- counting announcements -----

  ghost function CreateCount(events: seq<Event>, c: Id): int
  {
    if events == [] then 0
    else
      var last := events[|events| - 1];
      CreateCount(events[..|events| - 1], c) + Bit(last.ChannelCreate? && last.id == c)
  }

  ghost function DeleteCount(events: seq<Event>, c: Id): int
  {
    if events == [] then 0
    else
      var last := events[|events| - 1];
      DeleteCount(events[..|events| - 1], c) + Bit(last.ChannelDelete? && last.id == c)
  }

  lemma {:induction false} CountsConcat(a: seq<Event>, b: seq<Event>, c: Id)
    ensures CreateCount(a + b, c) == CreateCount(a, c) + CreateCount(b, c)
    ensures DeleteCount(a + b, c) == DeleteCount(a, c) + DeleteCount(b, c)
  {
    if b == [] {
      assert a + b == a;
    } else {
      assert (a + b)[..|a + b| - 1] == a + b[..|b| - 1];
      CountsConcat(a, b[..|b| - 1], c);
    }
  }

  lemma {:induction false} CountsOfDeletes(ids: seq<Id>, c: Id)
    requires NoDup(ids)
    ensures CreateCount(Deletes(ids), c) == 0 && DeleteCount(Deletes(ids), c) == Bit(c in ids)
  {
    if ids != [] {
      var prefix, last := ids[..|ids| - 1], ids[|ids| - 1];
      NoDupPrefix(ids);
      CountsOfDeletes(prefix, c);
      assert Deletes(ids)[..|ids| - 1] == Deletes(prefix);
      assert ids == prefix + [last];
    }
  }

  lemma {:induction false} CountsOfCreates(rows: seq<Row>, c: Id)
    requires DistinctRows(rows)
    ensures DeleteCount(Creates(rows), c) == 0 && CreateCount(Creates(rows), c) == Bit(c in RowIds(rows))
  {
    if rows != [] {
      var prefix, last := rows[..|rows| - 1], rows[|rows| - 1];
      CountsOfCreates(prefix, c);
      assert Creates(rows)[..|rows| - 1] == Creates(prefix);
      assert rows == prefix + [last];
      assert RowIds(rows) == RowIds(prefix) + {last.id};
      assert last.id !in RowIds(prefix);
    }
  }

  lemma CountsAppend(events: seq<Event>, id: Id, ch: Channel, c: Id)
    ensures CreateCount(events + [ChannelCreate(id, ch)], c) == CreateCount(events, c) + Bit(id == c)
    ensures DeleteCount(events + [ChannelCreate(id, ch)], c) == DeleteCount(events, c)
  {
    assert (events + [ChannelCreate(id, ch)])[..|events|] == events;
  }

  /** How often the events built so far name `c`: once if they created it, never as a deletion. */
  ghost predicate NamedOnce(r: Revealing, c: Id)
  {
    CreateCount(r.tops, c) + CreateCount(r.threads, c) == Bit(c in CreatedIds(r.tops) + CreatedIds(r.threads)) &&
    DeleteCount(r.tops, c) + DeleteCount(r.threads, c) == 0
  }

  lemma RevealStepNamesOnce(r: Revealing, db: Db, id: Id, c: Id)
    requires NamedOnce(r, c) && id !in CreatedIds(r.tops) + CreatedIds(r.threads)
    ensures NamedOnce(RevealStep(r, db, id), c)
  {
    if id in r.rows {
      CountsAppend(r.tops, id, r.rows[id], c);
      CountsAppend(r.threads, id, r.rows[id], c);
      CreatedIdsAppend(r.tops, id, r.rows[id]);
      CreatedIdsAppend(r.threads, id, r.rows[id]);
    }
  }

  lemma {:induction false} CountsOfReveal(conn: Conn, db: Db, rows: map<Id, Channel>, ids: seq<Id>, c: Id)
    requires NoDup(ids)
    ensures NamedOnce(RevealAll(Revealing(conn, rows, [], []), db, ids), c)
  {
    if ids != [] {
      var prefix, id := ids[..|ids| - 1], ids[|ids| - 1];
      NoDupPrefix(ids);
      CountsOfReveal(conn, db, rows, prefix, c);
      RevealSummary(conn, db, rows, prefix);
      var r := RevealAll(Revealing(conn, rows, [], []), db, prefix);
      CreatedWithin(r, rows, IdSet(prefix));
      RevealStepNamesOnce(r, db, id, c);
    }
  }

  lemma CreatedWithin(r: Revealing, rows: map<Id, Channel>, ids: set<Id>)
    requires CreatesFrom(r.tops, rows, ids, false) && CreatesFrom(r.threads, rows, ids, true)
    ensures CreatedIds(r.tops) + CreatedIds(r.threads) <= ids
  {
  }

  lemma CountsOfRevealed(conn: Conn, db: Db, ids: seq<Id>, c: Id)
    requires NoDup(ids)
    ensures var events := Reveal(conn, db, ids).events;
      CreateCount(events, c) == Bit(c in CreatedIds(events)) && DeleteCount(events, c) == 0
  {
    if ids != [] && FreshRows(db, ids).Some? {
      var rows := FreshRows(db, ids).value;
      CountsOfReveal(conn, db, rows, ids, c);
      var r := RevealAll(Revealing(conn, rows, [], []), db, ids);
      CountsConcat(r.tops, r.threads, c);
      CreatedIdsConcat(r.tops, r.threads);
    }
  }

  // ----- the shape of a recalculation -----

  ghost function Prior(conn: Conn, env: Env, id: Id): seq<Id> { CachedOf(conn.cache, env.order, id) }

  ghost function SortedOf(conn: Conn, env: Env, id: Id): Sorting
  {
    SortAll(conn.cache, conn.subs.subscribed, env.db, Prior(conn, env, id))
  }

  ghost function Unknowns(conn: Conn, env: Env, id: Id): set<Id>
    requires id in conn.cache.servers
  {
    (set c | c in conn.cache.servers[id].channels) - (set c | c in Prior(conn, env, id))
  }

  /** The listed, uncached rows a recalculation adopts: those that are viewable once the reveals are cached. */
  ghost function Adopted(conn: Conn, env: Env, id: Id): seq<Row>
    requires id in conn.cache.servers
  {
    var revealed := Reveal(conn, env.db, SortedOf(conn, env, id).revealed).conn;
    var unknowns := Unknowns(conn, env, id);
    if unknowns == {} || !env.db.fetchMany(unknowns).Rows? then []
    else Accessible(revealed.cache, env.db, env.db.fetchMany(unknowns).rows)
  }

  lemma RecalculateShape(conn: Conn, env: Env, id: Id)
    requires id in conn.cache.servers && NoDup(env.order)
    ensures var a := RecalculateBulk(conn, env, id);
      var sorted := SortedOf(conn, env, id);
      var revealed := Reveal(conn, env.db, sorted.revealed);
      var rows := Adopted(conn, env, id);
      a.events == Deletes(sorted.hidden) + Creates(rows) + revealed.events &&
      a.conn.cache.channels == revealed.conn.cache.channels + RowMap(rows) &&
      a.conn.subs.subscribed
        == revealed.conn.subs.subscribed - Topics(IdSet(sorted.hidden)) + Topics(RowIds(rows)) &&
      a.conn == revealed.conn.(cache := revealed.conn.cache.(channels := a.conn.cache.channels), subs := a.conn.subs)
  {
    var sorted := SortedOf(conn, env, id);
    var revealed := Reveal(conn, env.db, sorted.revealed);
    var hidden := HideAll(Announcing(revealed.conn, []), sorted.hidden);
    HideSummary(revealed.conn, sorted.hidden);
    var rows := Adopted(conn, env, id);
    assert hidden.conn.cache == revealed.conn.cache;
    if rows == [] {
      assert Creates(rows) == [] && RowMap(rows) == map[] && RowIds(rows) == {};
    }
    AdoptSummary(hidden, rows);
  }

  lemma {:induction false} FilterDistinct(rows: seq<Row>, p: Row -> bool)
    requires DistinctRows(rows)
    ensures DistinctRows(Filter(rows, p))
  {
    if rows != [] {
      var prefix := rows[..|rows| - 1];
      FilterDistinct(prefix, p);
      var kept := Filter(prefix, p);
      forall i | 0 <= i < |kept| ensures kept[i].id != rows[|rows| - 1].id {
        assert kept[i] in prefix;
        var j :| 0 <= j < |prefix| && prefix[j] == kept[i];
        assert rows[j] == kept[i];
      }
    }
  }

  lemma AdoptedAreListed(conn: Conn, env: Env, id: Id)
    requires id in conn.cache.servers && ReadsRequested(env.db)
    ensures RowIds(Adopted(conn, env, id)) <= Unknowns(conn, env, id) && DistinctRows(Adopted(conn, env, id))
  {
    var unknowns := Unknowns(conn, env, id);
    var rows := Adopted(conn, env, id);
    if unknowns != {} && env.db.fetchMany(unknowns).Rows? {
      var all := env.db.fetchMany(unknowns).rows;
      var revealed := Reveal(conn, env.db, SortedOf(conn, env, id).revealed).conn;
      FilterDistinct(all, (row: Row) => CanView(revealed.cache, env.db, row.channel));
      forall row | row in rows ensures row.id in unknowns {
        assert row in all && row.id in RowIds(all);
      }
    }
  }

  /**
  A recalculation names exactly what changed: one ChannelCreate for each channel that
  became subscribed, one ChannelDelete for each that stopped being so, nothing else.
  */
  lemma RecalculationAnnouncesChanges(conn: Conn, env: Env, id: Id, told: set<Id>, home: Homes, c: Id)
    requires id in conn.cache.servers && NoDup(env.order) && ReadsRequested(env.db)
    requires Synced(conn, told, home) && forall x :: x in conn.cache.channels ==> x in env.order
    ensures var a := RecalculateBulk(conn, env, id);
      CreateCount(a.events, c) == Bit(!Subscribed(conn, c) && Subscribed(a.conn, c)) &&
      DeleteCount(a.events, c) == Bit(Subscribed(conn, c) && !Subscribed(a.conn, c))
  {
    var sorted := SortedOf(conn, env, id);
    var revealed := Reveal(conn, env.db, sorted.revealed);
    var rows := Adopted(conn, env, id);
    BulkCounts(conn, env, id, c);
    RecalculateShape(conn, env, id);
    RecalculateParts(conn, env, id);
    AdoptedAreListed(conn, env, id);
    UnknownsNotHeld(conn, conn, env, id, told, home);
    RevealGives(conn, env.db, sorted.revealed);
    assert c in sorted.hidden ==> Subscribed(conn, c);
    assert c in RowIds(rows) ==> c in Unknowns(conn, env, id) && !Subscribed(conn, c);
    assert c in CreatedIds(revealed.events) ==> c in sorted.revealed && !Subscribed(conn, c);
  }

  /** How often the bulk list names `c`, by the part that names it. */
  lemma BulkCounts(conn: Conn, env: Env, id: Id, c: Id)
    requires id in conn.cache.servers && NoDup(env.order) && ReadsRequested(env.db)
    ensures var events := RecalculateBulk(conn, env, id).events;
      var sorted := SortedOf(conn, env, id);
      CreateCount(events, c) == Bit(c in RowIds(Adopted(conn, env, id)))
        + Bit(c in CreatedIds(Reveal(conn, env.db, sorted.revealed).events)) &&
      DeleteCount(events, c) == Bit(c in sorted.hidden)
  {
    var sorted := SortedOf(conn, env, id);
    var revealed := Reveal(conn, env.db, sorted.revealed);
    var rows := Adopted(conn, env, id);
    RecalculateShape(conn, env, id);
    RecalculateParts(conn, env, id);
    AdoptedAreListed(conn, env, id);
    CountsConcat(Deletes(sorted.hidden) + Creates(rows), revealed.events, c);
    CountsConcat(Deletes(sorted.hidden), Creates(rows), c);
    CountsOfDeletes(sorted.hidden, c);
    CountsOfCreates(rows, c);
    CountsOfRevealed(conn, env.db, sorted.revealed, c);
  }

  // ----- exactness -----

  /** Every read succeeds and answers from `rows`. */
  ghost predicate ReadsFrom(db: Db, rows: map<Id, Channel>)
  {
    (forall c :: db.fetchOne(c) == Get(rows, c)) &&
    (forall ids :: db.fetchMany(ids).Rows? && AnswersFrom(db.fetchMany(ids).rows, ids, rows))
  }

  ghost predicate AnswersFrom(answer: seq<Row>, ids: set<Id>, rows: map<Id, Channel>)
  {
    DistinctRows(answer) &&
    (forall row :: row in answer ==> row.id in ids && Get(rows, row.id) == Some(row.channel)) &&
    (forall c :: c in ids && c in rows ==> Row(c, rows[c]) in answer)
  }

  /** Whether server `id`'s member sees the top-level channel `ch`. */
  ghost predicate Sees(cache: Cache, db: Db, id: Id, ch: Channel)
  {
    ch.ServerChannel? && db.view(Get(cache.members, id), Get(cache.servers, id), ch)
  }

  /** The cached copy of `c` and its stored row are the same kind of channel, equally visible. */
  ghost predicate AgreesOn(cache: Cache, db: Db, id: Id, rows: map<Id, Channel>, c: Id)
  {
    c in cache.channels ==>
      var ch := cache.channels[c];
      (ch.ServerChannel? ==> c in rows) &&
      (c in rows ==>
        ServerOf(rows[c]) == ServerOf(ch) && rows[c].Thread? == ch.Thread? &&
        (ch.Thread? ==> rows[c].parent == ch.parent) && Sees(cache, db, id, rows[c]) == Sees(cache, db, id, ch))
  }

  /** `t` is a thread of server `id` under `parent`. */
  ghost predicate ThreadUnder(channels: map<Id, Channel>, id: Id, t: Id, parent: Id)
  {
    t in channels && channels[t].Thread? && channels[t].server == id && channels[t].parent == parent
  }

  /** A cached channel of server `id`, or the parent of one of its threads, cached or stored. */
  ghost predicate Concerned(cache: Cache, id: Id, rows: map<Id, Channel>, c: Id)
  {
    BelongsTo(cache, id, c) || exists t :: ThreadUnder(cache.channels, id, t, c) || ThreadUnder(rows, id, t, c)
  }

  /** Cache and store agree on what a recalculation of server `id` looks at; other servers' channels do not matter. */
  ghost predicate Agree(cache: Cache, db: Db, id: Id, rows: map<Id, Channel>)
  {
    forall c :: Concerned(cache, id, rows, c) ==> AgreesOn(cache, db, id, rows, c)
  }

  /** What the stored rows alone say about a channel of server `id` that looks like `ch`. */
  ghost predicate StoredVisible(cache: Cache, db: Db, id: Id, rows: map<Id, Channel>, ch: Channel)
  {
    if ch.Thread? then ch.parent in rows && Sees(cache, db, id, rows[ch.parent]) else Sees(cache, db, id, ch)
  }

  /** With cache and store in agreement, `can_view_channel` on the cached or stored `c` is the stored visibility. */
  lemma ViewIsStored(cache: Cache, db: Db, id: Id, rows: map<Id, Channel>, c: Id, ch: Channel)
    requires ReadsFrom(db, rows) && Agree(cache, db, id, rows) && ServerOf(ch) == Some(id)
    requires Get(cache.channels, c) == Some(ch) || Get(rows, c) == Some(ch)
    ensures CanView(cache, db, ch) == StoredVisible(cache, db, id, rows, ch)
  {
    if ch.Thread? {
      assert ThreadUnder(cache.channels, id, c, ch.parent) || ThreadUnder(rows, id, c, ch.parent);
      assert AgreesOn(cache, db, id, rows, ch.parent);
    }
  }

  lemma FreshAreStored(db: Db, rows: map<Id, Channel>, ids: seq<Id>)
    requires ReadsFrom(db, rows)
    ensures FreshRows(db, ids).Some?
    ensures forall c :: c in ids ==> Get(FreshRows(db, ids).value, c) == Get(rows, c)
  {
    var wanted := set c | c in ids;
    var answer := db.fetchMany(wanted).rows;
    assert AnswersFrom(answer, wanted, rows);
    forall c | c in ids ensures Get(RowMap(answer), c) == Get(rows, c) {
      if c in rows { assert Row(c, rows[c]) in answer; }
      if c in RowMap(answer) { assert Row(c, RowMap(answer)[c]) in answer; }
    }
  }

  /** Refreshing cached copies from the store keeps the agreement. */
  lemma RefreshedAgree(cache: Cache, db: Db, id: Id, rows: map<Id, Channel>, channels: map<Id, Channel>)
    requires Agree(cache, db, id, rows)
    requires forall c :: Get(channels, c) == Get(cache.channels, c) || Get(channels, c) == Get(rows, c)
    ensures Agree(cache.(channels := channels), db, id, rows)
  {
    var after := cache.(channels := channels);
    forall c | Concerned(after, id, rows, c) ensures AgreesOn(after, db, id, rows, c) {
      assert Get(channels, c) == Get(cache.channels, c) || Get(channels, c) == Get(rows, c);
      if Get(channels, c) == Get(cache.channels, c) {
        StillConcerned(cache, id, rows, channels, c);
        assert AgreesOn(cache, db, id, rows, c);
      }
    }
  }

  lemma StillConcerned(cache: Cache, id: Id, rows: map<Id, Channel>, channels: map<Id, Channel>, c: Id)
    requires forall x :: Get(channels, x) == Get(cache.channels, x) || Get(channels, x) == Get(rows, x)
    requires Concerned(cache.(channels := channels), id, rows, c) && Get(channels, c) == Get(cache.channels, c)
    ensures Concerned(cache, id, rows, c)
  {
    if !BelongsTo(cache, id, c) {
      var t :| ThreadUnder(channels, id, t, c) || ThreadUnder(rows, id, t, c);
      assert Get(channels, t) == Get(cache.channels, t) || Get(channels, t) == Get(rows, t);
      assert ThreadUnder(cache.channels, id, t, c) || ThreadUnder(rows, id, t, c);
    }
  }

  /** A reveal of visible channels announces every one of them that still exists. */
  lemma {:induction false} RevealIsComplete(conn: Conn, db: Db, id: Id, rows: map<Id, Channel>,
                                           stored: map<Id, Channel>, ids: seq<Id>)
    requires ReadsFrom(db, rows) && Agree(conn.cache, db, id, rows) && NoDup(ids)
    requires forall c :: c in ids ==>
      Get(stored, c) == Get(rows, c) && BelongsTo(conn.cache, id, c) &&
      StoredVisible(conn.cache, db, id, rows, conn.cache.channels[c])
    ensures var r := RevealAll(Revealing(conn, stored, [], []), db, ids);
      forall c :: c in CreatedIds(r.tops) + CreatedIds(r.threads) <==> c in ids && c in rows
  {
    if ids != [] {
      var prefix, last := ids[..|ids| - 1], ids[|ids| - 1];
      NoDupPrefix(ids);
      RevealIsComplete(conn, db, id, rows, stored, prefix);
      RevealSummary(conn, db, stored, prefix);
      var r := RevealAll(Revealing(conn, stored, [], []), db, prefix);
      forall c
        ensures || Get(r.conn.cache.channels, c) == Get(conn.cache.channels, c)
                || Get(r.conn.cache.channels, c) == Get(rows, c)
      {
        if c in IdSet(prefix) { assert c in ids; }
      }
      RefreshedAgree(conn.cache, db, id, rows, r.conn.cache.channels);
      assert last in ids && BelongsTo(conn.cache, id, last);
      assert Get(r.rows, last) == Get(rows, last);
      if last in rows {
        assert AgreesOn(conn.cache, db, id, rows, last);
        ViewIsStored(r.conn.cache, db, id, rows, last, rows[last]);
        CreatedIdsAppend(r.tops, last, rows[last]);
        CreatedIdsAppend(r.threads, last, rows[last]);
      }
      assert ids == prefix + [last];
    }
  }

  /** Reads succeed, cache and store agree, and rows carry their own server. */
  ghost predicate Settled(conn: Conn, env: Env, id: Id, rows: map<Id, Channel>, told: set<Id>, home: Homes)
  {
    id in conn.cache.servers && NoDup(env.order) && Synced(conn, told, home) &&
    (forall c :: c in conn.cache.channels ==> c in env.order) &&
    ReadsFrom(env.db, rows) && Agree(conn.cache, env.db, id, rows) &&
    (forall c :: c in rows ==> ServerOf(rows[c]) == home(c))
  }

  /** Everything cached for the server is subscribed exactly when visible, and nothing listed is left out. */
  ghost predicate Exact(conn: Conn, db: Db, id: Id, rows: map<Id, Channel>)
  {
    id in conn.cache.servers &&
    (forall c :: BelongsTo(conn.cache, id, c) ==> (Subscribed(conn, c) <==> Visible(conn.cache, db, c))) &&
    (forall c :: c in conn.cache.servers[id].channels && c in rows && c !in conn.cache.channels ==>
      !CanView(conn.cache, db, rows[c]))
  }

  lemma SettledReads(db: Db, rows: map<Id, Channel>)
    requires ReadsFrom(db, rows)
    ensures ReadsRequested(db)
  {
    forall ids ensures RowIds(db.fetchMany(ids).rows) <= ids && DistinctRows(db.fetchMany(ids).rows) {
      assert AnswersFrom(db.fetchMany(ids).rows, ids, rows);
    }
  }

  /** What the reveal inside a settled recalculation does. */
  lemma SettledReveal(conn: Conn, env: Env, id: Id, rows: map<Id, Channel>, told: set<Id>, home: Homes)
    requires Settled(conn, env, id, rows, told, home)
    ensures var ids := SortedOf(conn, env, id).revealed;
      var r := Reveal(conn, env.db, ids);
      (forall c :: c in CreatedIds(r.events) <==> c in ids && c in rows) &&
      (forall c :: c !in ids ==> Get(r.conn.cache.channels, c) == Get(conn.cache.channels, c)) &&
      (forall c :: c in ids ==> Get(r.conn.cache.channels, c) == Get(rows, c)) &&
      Agree(r.conn.cache, env.db, id, rows) &&
      r.conn.cache == conn.cache.(channels := r.conn.cache.channels) &&
      r.conn.subs.subscribed == conn.subs.subscribed + Topics(CreatedIds(r.events))
  {
    var ids := SortedOf(conn, env, id).revealed;
    RecalculateParts(conn, env, id);
    RevealGives(conn, env.db, ids);
    FreshAreStored(env.db, rows, ids);
    var r := Reveal(conn, env.db, ids);
    forall c | c in ids ensures StoredVisible(conn.cache, env.db, id, rows, conn.cache.channels[c]) {
      ViewIsStored(conn.cache, env.db, id, rows, c, conn.cache.channels[c]);
    }
    if ids != [] {
      var stored := FreshRows(env.db, ids).value;
      RevealIsComplete(conn, env.db, id, rows, stored, ids);
      var all := RevealAll(Revealing(conn, stored, [], []), env.db, ids);
      CreatedIdsConcat(all.tops, all.threads);
    }
    forall c
      ensures || Get(r.conn.cache.channels, c) == Get(conn.cache.channels, c)
              || Get(r.conn.cache.channels, c) == Get(rows, c)
    {
      if c in IdSet(ids) { assert c in ids; }
    }
    RefreshedAgree(conn.cache, env.db, id, rows, r.conn.cache.channels);
  }

  /** The adopted rows of a settled recalculation: the listed, uncached, visible ones. */
  lemma SettledAdopted(conn: Conn, env: Env, id: Id, rows: map<Id, Channel>, told: set<Id>, home: Homes)
    requires Settled(conn, env, id, rows, told, home)
    ensures var adopted := Adopted(conn, env, id);
      (forall row :: row in adopted ==> Get(rows, row.id) == Some(row.channel)) &&
      (forall c :: c in RowIds(adopted) <==>
        c in Unknowns(conn, env, id) && c in rows && StoredVisible(conn.cache, env.db, id, rows, rows[c]))
  {
    var adopted, unknowns := Adopted(conn, env, id), Unknowns(conn, env, id);
    SettledReveal(conn, env, id, rows, told, home);
    var revealed := Reveal(conn, env.db, SortedOf(conn, env, id).revealed).conn;
    var answer := env.db.fetchMany(unknowns).rows;
    assert AnswersFrom(answer, unknowns, rows);
    assert ServerConforms(home, id, conn.cache.servers[id]);
    forall c | c in unknowns && c in rows
      ensures CanView(revealed.cache, env.db, rows[c]) == StoredVisible(conn.cache, env.db, id, rows, rows[c])
    {
      ViewIsStored(revealed.cache, env.db, id, rows, c, rows[c]);
    }
    forall c ensures c in RowIds(adopted) <==>
      c in unknowns && c in rows && StoredVisible(conn.cache, env.db, id, rows, rows[c])
    {
      if c in unknowns && c in rows && StoredVisible(conn.cache, env.db, id, rows, rows[c]) {
        assert Row(c, rows[c]) in answer;
        assert Row(c, rows[c]) in adopted;
      }
    }
  }

  /** After a settled recalculation the cache still agrees with the store. */
  lemma SettledStaysAgreed(conn: Conn, env: Env, id: Id, rows: map<Id, Channel>, told: set<Id>, home: Homes)
    requires Settled(conn, env, id, rows, told, home)
    ensures Agree(RecalculateBulk(conn, env, id).conn.cache, env.db, id, rows)
  {
    SettledReveal(conn, env, id, rows, told, home);
    SettledAdopted(conn, env, id, rows, told, home);
    RecalculateShape(conn, env, id);
    var revealed := Reveal(conn, env.db, SortedOf(conn, env, id).revealed).conn;
    var adopted := Adopted(conn, env, id);
    var after := RecalculateBulk(conn, env, id).conn.cache;
    forall c
      ensures Get(after.channels, c) == Get(revealed.cache.channels, c) || Get(after.channels, c) == Get(rows, c)
    {
      if c in RowMap(adopted) { assert Row(c, RowMap(adopted)[c]) in adopted; }
    }
    RefreshedAgree(revealed.cache, env.db, id, rows, after.channels);
  }

  /** Recalculation is exact: afterwards, subscribed means visible, for the cache and the server's list alike. */
  lemma RecalculationIsExact(conn: Conn, env: Env, id: Id, rows: map<Id, Channel>, told: set<Id>, home: Homes)
    requires Settled(conn, env, id, rows, told, home)
    ensures Exact(RecalculateBulk(conn, env, id).conn, env.db, id, rows)
  {
    var db := env.db;
    SettledReveal(conn, env, id, rows, told, home);
    SettledStaysAgreed(conn, env, id, rows, told, home);
    RecalculateShape(conn, env, id);
    var a := RecalculateBulk(conn, env, id);
    forall c | BelongsTo(a.conn.cache, id, c) ensures Subscribed(a.conn, c) <==> Visible(a.conn.cache, db, c) {
      ViewIsStored(a.conn.cache, db, id, rows, c, a.conn.cache.channels[c]);
      ExactOne(conn, env, id, rows, told, home, c);
    }
    forall c | c in a.conn.cache.servers[id].channels && c in rows && c !in a.conn.cache.channels
      ensures !CanView(a.conn.cache, db, rows[c])
    {
      assert ServerConforms(home, id, conn.cache.servers[id]);
      ViewIsStored(a.conn.cache, db, id, rows, c, rows[c]);
      ListedOne(conn, env, id, rows, told, home, c);
    }
  }

  /** One channel that is cached afterwards: it was adopted, or it was cached before. */
  lemma ExactOne(conn: Conn, env: Env, id: Id, rows: map<Id, Channel>, told: set<Id>, home: Homes, c: Id)
    requires Settled(conn, env, id, rows, told, home)
    requires BelongsTo(RecalculateBulk(conn, env, id).conn.cache, id, c)
    ensures var after := RecalculateBulk(conn, env, id).conn;
      Subscribed(after, c) <==> StoredVisible(after.cache, env.db, id, rows, after.cache.channels[c])
  {
    if c in RowIds(Adopted(conn, env, id)) {
      ExactAdopted(conn, env, id, rows, told, home, c);
    } else {
      ExactCached(conn, env, id, rows, told, home, c);
    }
  }

  lemma ExactAdopted(conn: Conn, env: Env, id: Id, rows: map<Id, Channel>, told: set<Id>, home: Homes, c: Id)
    requires Settled(conn, env, id, rows, told, home) && c in RowIds(Adopted(conn, env, id))
    requires BelongsTo(RecalculateBulk(conn, env, id).conn.cache, id, c)
    ensures var after := RecalculateBulk(conn, env, id).conn;
      Subscribed(after, c) <==> StoredVisible(after.cache, env.db, id, rows, after.cache.channels[c])
  {
    var adopted := Adopted(conn, env, id);
    SettledReveal(conn, env, id, rows, told, home);
    SettledAdopted(conn, env, id, rows, told, home);
    RecalculateShape(conn, env, id);
    var row :| row in adopted && row.id == c;
    assert c in RowMap(adopted) && Row(c, RowMap(adopted)[c]) in adopted;
  }

  lemma ExactCached(conn: Conn, env: Env, id: Id, rows: map<Id, Channel>, told: set<Id>, home: Homes, c: Id)
    requires Settled(conn, env, id, rows, told, home) && c !in RowIds(Adopted(conn, env, id))
    requires BelongsTo(RecalculateBulk(conn, env, id).conn.cache, id, c)
    ensures var after := RecalculateBulk(conn, env, id).conn;
      Subscribed(after, c) <==> StoredVisible(after.cache, env.db, id, rows, after.cache.channels[c])
  {
    NotAdopted(conn, env, id, c);
    SettledReveal(conn, env, id, rows, told, home);
    RecalculateParts(conn, env, id);
    CachedBefore(conn, env, id, rows, told, home, c);
    ViewIsStored(conn.cache, env.db, id, rows, c, conn.cache.channels[c]);
    assert AgreesOn(conn.cache, env.db, id, rows, c);
  }

  /** A channel that is not adopted is as the reveal left it, minus the hidden ones' subscriptions. */
  lemma NotAdopted(conn: Conn, env: Env, id: Id, c: Id)
    requires id in conn.cache.servers && NoDup(env.order) && c !in RowIds(Adopted(conn, env, id))
    ensures var after := RecalculateBulk(conn, env, id).conn;
      var revealed := Reveal(conn, env.db, SortedOf(conn, env, id).revealed).conn;
      after.cache == revealed.cache.(channels := after.cache.channels) &&
      Get(after.cache.channels, c) == Get(revealed.cache.channels, c) &&
      (Subscribed(after, c) <==> Subscribed(revealed, c) && c !in SortedOf(conn, env, id).hidden)
  {
    RecalculateShape(conn, env, id);
    assert c !in RowMap(Adopted(conn, env, id));
  }

  lemma CachedBefore(conn: Conn, env: Env, id: Id, rows: map<Id, Channel>, told: set<Id>, home: Homes, c: Id)
    requires Settled(conn, env, id, rows, told, home)
    requires BelongsTo(Reveal(conn, env.db, SortedOf(conn, env, id).revealed).conn.cache, id, c)
    ensures BelongsTo(conn.cache, id, c) && c in Prior(conn, env, id)
  {
    SettledReveal(conn, env, id, rows, told, home);
    RecalculateParts(conn, env, id);
    var revealed := Reveal(conn, env.db, SortedOf(conn, env, id).revealed);
    if c !in SortedOf(conn, env, id).revealed {
      assert Get(revealed.conn.cache.channels, c) == Get(conn.cache.channels, c);
    }
  }

  /** A listed channel that stays uncached was not visible. */
  lemma ListedOne(conn: Conn, env: Env, id: Id, rows: map<Id, Channel>, told: set<Id>, home: Homes, c: Id)
    requires Settled(conn, env, id, rows, told, home)
    requires c in conn.cache.servers[id].channels && c in rows
    requires c !in RecalculateBulk(conn, env, id).conn.cache.channels
    ensures !StoredVisible(conn.cache, env.db, id, rows, rows[c])
  {
    SettledReveal(conn, env, id, rows, told, home);
    SettledAdopted(conn, env, id, rows, told, home);
    RecalculateShape(conn, env, id);
    var adopted := Adopted(conn, env, id);
    var revealed := Reveal(conn, env.db, SortedOf(conn, env, id).revealed);
    assert c !in revealed.conn.cache.channels;
    assert Get(revealed.conn.cache.channels, c) == None;
  }

  /** Recalculating an exact state changes nothing and leaves the event unwrapped. */
  lemma ExactIsStable(conn: Conn, env: Env, id: Id, rows: map<Id, Channel>, event: Event)
    requires Exact(conn, env.db, id, rows) && ReadsFrom(env.db, rows) && NoDup(env.order)
    requires forall c :: c in conn.cache.channels ==> c in env.order
    requires forall c :: c in conn.cache.channels && c in conn.cache.servers[id].channels ==>
      BelongsTo(conn.cache, id, c)
    ensures Recalculate(conn, env, id, event) == Recalculated(conn, event)
  {
    var sorted := SortedOf(conn, env, id);
    RecalculateParts(conn, env, id);
    forall c ensures c !in sorted.revealed && c !in sorted.hidden {
      assert c in Prior(conn, env, id) ==> BelongsTo(conn.cache, id, c);
    }
    EmptyOrHolds(sorted.revealed);
    EmptyOrHolds(sorted.hidden);
    var unknowns := Unknowns(conn, env, id);
    var answer := env.db.fetchMany(unknowns).rows;
    assert AnswersFrom(answer, unknowns, rows);
    var visible := Accessible(conn.cache, env.db, answer);
    forall row ensures row !in visible {
      if row in answer {
        assert row.id in unknowns && row.id in rows && rows[row.id] == row.channel;
        assert row.id !in conn.cache.channels;
      }
    }
    EmptyOrHolds(visible);
  }

  lemma EmptyOrHolds<T(!new)>(s: seq<T>)
    ensures s == [] || exists x :: x in s
  {
    if s != [] { assert s[0] in s; }
  }

  /** Recalculating a second time, in any iteration order, forwards the event as it came. */
  lemma RecalculationIsIdempotent(conn: Conn, env: Env, id: Id, rows: map<Id, Channel>, told: set<Id>, home: Homes,
                                  again: seq<Id>, event: Event)
    requires Settled(conn, env, id, rows, told, home) && DbConforms(home, env.db)
    requires var once := RecalculateBulk(conn, env, id).conn;
      NoDup(again) && forall c :: c in once.cache.channels ==> c in again
    ensures var once := RecalculateBulk(conn, env, id).conn;
      Recalculate(once, Env(env.db, again), id, event) == Recalculated(once, event)
  {
    RecalculationIsExact(conn, env, id, rows, told, home);
    var gone, extra, shown := RecalculatePieces(conn, env, id, told, home);
    var once := RecalculateBulk(conn, env, id).conn;
    RecalculateShape(conn, env, id);
    RevealGives(conn, env.db, SortedOf(conn, env, id).revealed) by { RecalculateParts(conn, env, id); }
    assert ServerConforms(home, id, once.cache.servers[id]);
    ExactIsStable(once, Env(env.db, again), id, rows, event);
  }
}
