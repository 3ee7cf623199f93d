/**
What each loop of the event handler does as a whole: which channels end up
subscribed, which cache entries change, and which ChannelCreate / ChannelDelete
events come out. Every later theorem builds on these summaries.
*/
module Announcements {
  import opened Sequences
  import opened Subscriptions
  import opened Connection

  function Topics(ids: set<Id>): (r: set<Topic>)
    ensures forall t :: t in r <==> t.ChannelTopic? && t.channel in ids
  {
    set c | c in ids :: ChannelTopic(c)
  }

  function IdSet(ids: seq<Id>): (r: set<Id>) { set c | c in ids }

  function RowIds(rows: seq<Row>): (r: set<Id>) { set row | row in rows :: row.id }

  ghost predicate AllCreates(events: seq<Event>) { forall e :: e in events ==> e.ChannelCreate? }

  ghost function CreatedIds(events: seq<Event>): (r: set<Id>)
  {
    set e | e in events && e.ChannelCreate? :: e.id
  }

  lemma CreatedIdsAppend(events: seq<Event>, id: Id, ch: Channel)
    ensures CreatedIds(events + [ChannelCreate(id, ch)]) == CreatedIds(events) + {id}
  {
    var more := events + [ChannelCreate(id, ch)];
    assert more[|events|] == ChannelCreate(id, ch);
    forall x ensures x in CreatedIds(more) <==> x in CreatedIds(events) + {id} {
      if x in CreatedIds(events) {
        var e :| e in events && e.ChannelCreate? && e.id == x;
        assert e in more;
      }
      if x == id { assert ChannelCreate(id, ch) in more; }
    }
  }

  lemma CreatedIdsConcat(a: seq<Event>, b: seq<Event>)
    ensures CreatedIds(a + b) == CreatedIds(a) + CreatedIds(b)
  {
    forall x ensures x in CreatedIds(a + b) <==> x in CreatedIds(a) + CreatedIds(b) {
      if x in CreatedIds(a) {
        var e :| e in a && e.ChannelCreate? && e.id == x;
        assert e in a + b;
      }
      if x in CreatedIds(b) {
        var e :| e in b && e.ChannelCreate? && e.id == x;
        assert e in a + b;
      }
    }
  }

  // ----- reveal_channels -----

  /** The create events of a reveal: each names a requested id with the row that was read for it. */
  ghost predicate CreatesFrom(events: seq<Event>, rows: map<Id, Channel>, ids: set<Id>, threads: bool)
  {
    forall e :: e in events ==>
      e.ChannelCreate? && e.id in ids && e.id in rows && e.channel == rows[e.id] && e.channel.Thread? == threads
  }

  /** Everything a reveal of `ids` from `rows` changes, relative to `conn`. */
  ghost predicate RevealedTo(conn: Conn, rows: map<Id, Channel>, ids: set<Id>, r: Revealing)
  {
    var created := CreatedIds(r.tops) + CreatedIds(r.threads);
    r.conn == conn.(cache := conn.cache.(channels := r.conn.cache.channels), subs := r.conn.subs) &&
    r.rows == rows - ids &&
    CreatesFrom(r.tops, rows, ids, false) && CreatesFrom(r.threads, rows, ids, true) &&
    r.conn.subs.subscribed == conn.subs.subscribed + Topics(created) &&
    (forall c :: c !in ids ==> Get(r.conn.cache.channels, c) == Get(conn.cache.channels, c)) &&
    (forall c :: c in ids ==> Get(r.conn.cache.channels, c) == Get(rows, c))
  }

  lemma {:induction false} RevealSummary(conn: Conn, db: Db, rows: map<Id, Channel>, ids: seq<Id>)
    requires NoDup(ids)
    ensures RevealedTo(conn, rows, IdSet(ids), RevealAll(Revealing(conn, rows, [], []), db, ids))
  {
    if ids != [] {
      var prefix, id := ids[..|ids| - 1], ids[|ids| - 1];
      NoDupPrefix(ids);
      RevealSummary(conn, db, rows, prefix);
      var r := RevealAll(Revealing(conn, rows, [], []), db, prefix);
      assert IdSet(ids) == IdSet(prefix) + {id};
      RevealStepSummary(conn, db, rows, IdSet(prefix), r, id);
    }
  }

  lemma CreatesFromGrows(events: seq<Event>, rows: map<Id, Channel>, ids: set<Id>, threads: bool, id: Id)
    requires CreatesFrom(events, rows, ids, threads)
    ensures CreatesFrom(events, rows, ids + {id}, threads)
    ensures id in rows && rows[id].Thread? == threads ==>
      CreatesFrom(events + [ChannelCreate(id, rows[id])], rows, ids + {id}, threads)
  {
  }

  /** One step decides the cache entry of its own channel and nothing else. */
  lemma RevealStepEntry(r: Revealing, db: Db, id: Id, c: Id)
    ensures var r' := RevealStep(r, db, id);
      Get(r'.conn.cache.channels, c) == if c == id then Get(r.rows, id) else Get(r.conn.cache.channels, c)
  {
  }

  lemma RevealStepFrame(r: Revealing, db: Db, id: Id)
    ensures var r' := RevealStep(r, db, id);
      r'.rows == r.rows - {id} &&
      r'.conn == r.conn.(cache := r.conn.cache.(channels := r'.conn.cache.channels), subs := r'.conn.subs)
  {
    if id in r.rows {
      var cached := CacheChannel(r.conn, id, r.rows[id]);
      assert RevealStep(r, db, id).conn ==
        if CanView(r.conn.cache, db, r.rows[id]) then Subscribe(cached, ChannelTopic(id)) else cached;
    }
  }

  lemma RevealStepCache(conn: Conn, db: Db, rows: map<Id, Channel>, done: set<Id>, r: Revealing, id: Id)
    requires RevealedTo(conn, rows, done, r) && id !in done
    ensures var channels, ids := RevealStep(r, db, id).conn.cache.channels, done + {id};
      (forall c :: c !in ids ==> Get(channels, c) == Get(conn.cache.channels, c)) &&
      (forall c :: c in ids ==> Get(channels, c) == Get(rows, c))
  {
    var channels := RevealStep(r, db, id).conn.cache.channels;
    forall c
      ensures Get(channels, c) == if c == id then Get(r.rows, id) else Get(r.conn.cache.channels, c)
    {
      RevealStepEntry(r, db, id, c);
    }
    assert Get(r.rows, id) == Get(rows, id);
  }

  lemma RevealStepEvents(conn: Conn, db: Db, rows: map<Id, Channel>, done: set<Id>, r: Revealing, id: Id)
    requires RevealedTo(conn, rows, done, r) && id !in done
    ensures var r', ids := RevealStep(r, db, id), done + {id};
      CreatesFrom(r'.tops, rows, ids, false) && CreatesFrom(r'.threads, rows, ids, true)
  {
    CreatesFromGrows(r.tops, rows, done, false, id);
    CreatesFromGrows(r.threads, rows, done, true, id);
  }

  lemma RevealStepTopics(conn: Conn, db: Db, rows: map<Id, Channel>, done: set<Id>, r: Revealing, id: Id)
    requires RevealedTo(conn, rows, done, r) && id !in done
    ensures var r' := RevealStep(r, db, id);
      r'.conn.subs.subscribed == conn.subs.subscribed + Topics(CreatedIds(r'.tops) + CreatedIds(r'.threads))
  {
    if id in r.rows {
      CreatedIdsAppend(r.tops, id, r.rows[id]);
      CreatedIdsAppend(r.threads, id, r.rows[id]);
    }
  }

  lemma RevealStepSummary(conn: Conn, db: Db, rows: map<Id, Channel>, done: set<Id>, r: Revealing, id: Id)
    requires RevealedTo(conn, rows, done, r) && id !in done
    ensures RevealedTo(conn, rows, done + {id}, RevealStep(r, db, id))
  {
    RevealStepFrame(r, db, id);
    assert rows - done - {id} == rows - (done + {id});
    RevealStepCache(conn, db, rows, done, r, id);
    RevealStepEvents(conn, db, rows, done, r, id);
    RevealStepTopics(conn, db, rows, done, r, id);
  }

  /** A reveal that read its rows, as `Reveal` returns it. */
  ghost predicate RevealOutcome(conn: Conn, db: Db, ids: seq<Id>, r: Revealed)
  {
    AllCreates(r.events) &&
    CreatedIds(r.events) <= IdSet(ids) &&
    r.conn == conn.(cache := conn.cache.(channels := r.conn.cache.channels), subs := r.conn.subs) &&
    r.conn.subs.subscribed == conn.subs.subscribed + Topics(CreatedIds(r.events)) &&
    (forall c :: c in CreatedIds(r.events) ==> c in r.conn.cache.channels) &&
    (forall c :: c !in IdSet(ids) ==> Get(r.conn.cache.channels, c) == Get(conn.cache.channels, c)) &&
    (FreshRows(db, ids).None? ==> r == Revealed(conn, [])) &&
    (FreshRows(db, ids).Some? ==>
      forall c :: c in ids ==> Get(r.conn.cache.channels, c) == Get(FreshRows(db, ids).value, c)) &&
    (forall e :: e in r.events ==>
      e.id in ids && FreshRows(db, ids).Some? && Get(FreshRows(db, ids).value, e.id) == Some(e.channel))
  }

  lemma RevealGives(conn: Conn, db: Db, ids: seq<Id>)
    requires NoDup(ids)
    ensures RevealOutcome(conn, db, ids, Reveal(conn, db, ids))
  {
    if ids != [] && FreshRows(db, ids).Some? {
      var rows := FreshRows(db, ids).value;
      RevealSummary(conn, db, rows, ids);
      var r := RevealAll(Revealing(conn, rows, [], []), db, ids);
      CreatedIdsConcat(r.tops, r.threads);
    }
  }

  // ----- recalculate_server -----

  /** Each remembered answer is the one any thread of that parent gets. */
  ghost predicate MemoRight(cache: Cache, db: Db, id: Id, memo: map<Id, bool>)
  {
    forall p, content :: p in memo ==> memo[p] == CanView(cache, db, Thread(id, p, content))
  }

  lemma SortStepByVisibility(s: Sorting, cache: Cache, held: set<Topic>, db: Db, id: Id, c: Id)
    requires MemoRight(cache, db, id, s.memo) && BelongsTo(cache, id, c)
    ensures var r := SortStep(s, cache, held, db, c);
      var visible, known := CanView(cache, db, cache.channels[c]), ChannelTopic(c) in held;
      MemoRight(cache, db, id, r.memo) &&
      r.revealed == (if visible && !known then s.revealed + [c] else s.revealed) &&
      r.hidden == (if known && !visible then s.hidden + [c] else s.hidden)
  {
    var ch := cache.channels[c];
    if ch.Thread? {
      assert ch == Thread(id, ch.parent, ch.content);
      assert forall content :: CanView(cache, db, Thread(id, ch.parent, content)) == CanView(cache, db, ch);
    }
  }

  /** The memo never changes an answer, so the sorting is by visibility itself. */
  lemma {:induction false} SortSummary(cache: Cache, held: set<Topic>, db: Db, id: Id, prior: seq<Id>)
    requires NoDup(prior)
    requires forall c :: c in prior ==> c in cache.channels && BelongsTo(cache, id, c)
    ensures var s := SortAll(cache, held, db, prior);
      NoDup(s.revealed) && NoDup(s.hidden) && MemoRight(cache, db, id, s.memo) &&
      (forall c :: c in s.revealed <==>
        c in prior && ChannelTopic(c) !in held && CanView(cache, db, cache.channels[c])) &&
      (forall c :: c in s.hidden <==>
        c in prior && ChannelTopic(c) in held && !CanView(cache, db, cache.channels[c]))
  {
    if prior != [] {
      var prefix, last := prior[..|prior| - 1], prior[|prior| - 1];
      NoDupPrefix(prior);
      SortSummary(cache, held, db, id, prefix);
      assert prior == prefix + [last];
      SortStepByVisibility(SortAll(cache, held, db, prefix), cache, held, db, id, last);
    }
  }

  function Deletes(ids: seq<Id>): (r: seq<Event>)
  {
    seq(|ids|, i requires 0 <= i < |ids| => ChannelDelete(ids[i]))
  }

  function Creates(rows: seq<Row>): (r: seq<Event>)
  {
    seq(|rows|, i requires 0 <= i < |rows| => ChannelCreate(rows[i].id, rows[i].channel))
  }

  lemma {:induction false} HideSummary(conn: Conn, ids: seq<Id>)
    ensures var r := HideAll(Announcing(conn, []), ids);
      r.events == Deletes(ids) &&
      r.conn == conn.(subs := r.conn.subs) &&
      r.conn.subs.subscribed == conn.subs.subscribed - Topics(IdSet(ids))
  {
    if ids != [] {
      HideSummary(conn, ids[..|ids| - 1]);
      assert IdSet(ids) == IdSet(ids[..|ids| - 1]) + {ids[|ids| - 1]};
    }
  }

  lemma RowsSnoc(rows: seq<Row>, m: map<Id, Channel>)
    requires rows != []
    ensures var prefix, last := rows[..|rows| - 1], rows[|rows| - 1];
      RowIds(rows) == RowIds(prefix) + {last.id} &&
      Topics(RowIds(rows)) == Topics(RowIds(prefix)) + {ChannelTopic(last.id)} &&
      m + RowMap(rows) == (m + RowMap(prefix))[last.id := last.channel] &&
      Creates(rows) == Creates(prefix) + [ChannelCreate(last.id, last.channel)]
  {
    var prefix, last := rows[..|rows| - 1], rows[|rows| - 1];
    RowIdsSnoc(rows);
    assert RowMap(rows) == RowMap(prefix)[last.id := last.channel];
    MapSnoc(m, RowMap(prefix), last.id, last.channel);
  }

  lemma RowIdsSnoc(rows: seq<Row>)
    requires rows != []
    ensures RowIds(rows) == RowIds(rows[..|rows| - 1]) + {rows[|rows| - 1].id}
  {
    assert rows == rows[..|rows| - 1] + [rows[|rows| - 1]];
  }

  lemma MapSnoc(m: map<Id, Channel>, more: map<Id, Channel>, id: Id, ch: Channel)
    ensures m + more[id := ch] == (m + more)[id := ch]
  {
  }

  lemma {:induction false} AdoptSummary(a: Announcing, rows: seq<Row>)
    ensures var r := AdoptAll(a, rows);
      r.events == a.events + Creates(rows) &&
      r.conn == a.conn.(cache := a.conn.cache.(channels := r.conn.cache.channels), subs := r.conn.subs) &&
      r.conn.subs.subscribed == a.conn.subs.subscribed + Topics(RowIds(rows)) &&
      r.conn.cache.channels == a.conn.cache.channels + RowMap(rows)
  {
    if rows != [] {
      AdoptSummary(a, rows[..|rows| - 1]);
      RowsSnoc(rows, a.conn.cache.channels);
    }
  }

  lemma CreatedIdsOfRows(rows: seq<Row>)
    ensures AllCreates(Creates(rows)) && CreatedIds(Creates(rows)) == RowIds(rows)
  {
    forall c ensures c in CreatedIds(Creates(rows)) <==> c in RowIds(rows) {
      if c in RowIds(rows) {
        var row :| row in rows && row.id == c;
        var i :| 0 <= i < |rows| && rows[i] == row;
        assert Creates(rows)[i] in Creates(rows);
      }
    }
  }

  lemma {:induction false} CarrySummary(conn: Conn, rows: seq<Row>)
    ensures var r := CarryAll(conn, rows);
      r == conn.(cache := conn.cache.(channels := r.cache.channels), subs := r.subs) &&
      r.subs.subscribed == conn.subs.subscribed + Topics(RowIds(rows)) &&
      r.cache.channels == conn.cache.channels + RowMap(rows)
  {
    if rows != [] {
      CarrySummary(conn, rows[..|rows| - 1]);
      RowsSnoc(rows, conn.cache.channels);
    }
  }

  lemma {:induction false} DropSummary(conn: Conn, ids: seq<Id>)
    ensures var r := DropAll(conn, ids);
      r == conn.(cache := conn.cache.(channels := r.cache.channels), subs := r.subs) &&
      r.subs.subscribed == conn.subs.subscribed - Topics(IdSet(ids)) &&
      r.cache.channels == conn.cache.channels - IdSet(ids)
  {
    if ids != [] {
      DropSummary(conn, ids[..|ids| - 1]);
      assert IdSet(ids) == IdSet(ids[..|ids| - 1]) + {ids[|ids| - 1]};
    }
  }

  // ----- the child threads of an updated channel -----

  /** A cached channel that passes `can_view_channel`. */
  predicate Visible(cache: Cache, db: Db, c: Id)
  {
    c in cache.channels && CanView(cache, db, cache.channels[c])
  }

  function NewlyHidden(cache: Cache, db: Db, held: set<Topic>, ids: seq<Id>): (r: seq<Id>)
  {
    Filter(ids, c => ChannelTopic(c) in held && !Visible(cache, db, c))
  }

  function NewlyVisible(cache: Cache, db: Db, held: set<Topic>, ids: seq<Id>): (r: seq<Id>)
  {
    Filter(ids, c => ChannelTopic(c) !in held && Visible(cache, db, c))
  }

  lemma {:induction false} SweepSummary(conn: Conn, db: Db, held: set<Topic>, children: seq<Id>)
    ensures var s := SweepAll(Sweep(conn, [], []), db, held, children);
      var hidden := NewlyHidden(conn.cache, db, held, children);
      s.conn == conn.(subs := s.conn.subs) &&
      s.deletes == Deletes(hidden) &&
      s.revealed == NewlyVisible(conn.cache, db, held, children) &&
      s.conn.subs.subscribed == conn.subs.subscribed - Topics(IdSet(hidden))
  {
    if children != [] {
      var prefix, last := children[..|children| - 1], children[|children| - 1];
      SweepSummary(conn, db, held, prefix);
      var before := NewlyHidden(conn.cache, db, held, prefix);
      if ChannelTopic(last) in held && !Visible(conn.cache, db, last) {
        assert NewlyHidden(conn.cache, db, held, children) == before + [last];
        assert IdSet(before + [last]) == IdSet(before) + {last};
        assert Deletes(before + [last]) == Deletes(before) + [ChannelDelete(last)];
      } else {
        assert NewlyHidden(conn.cache, db, held, children) == before;
      }
    }
  }
}
