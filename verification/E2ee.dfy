/**
The E2EE device claim of one websocket connection (crates/bonfire/src/websocket.rs:869-870, 972-1111):
challenge, proof, same-session sweep, drain and acknowledgement.
*/
module E2ee {
  import opened Sequences

  const E2EE_DRAIN_LIMIT: nat := 1024
  const E2EE_MAX_ACK_BATCH: nat := 128

  type Device = string
  type Nonce = string
  type EnvelopeId = string

  /** A published identity, by its verifying key. */
  datatype Identity = Identity(key: int)

  /** A row of the user's identity listing: a device and the session it is bound to. */
  datatype Row = Row(device: Device, session: string)

  datatype Sent = Delivered | Failed | TimedOut

  /**
  A client frame, with what the world answers while it is handled: the generated nonce, how sending
  the reply ends, the identity row (`None` also when the read fails), the user's identity rows
  (`None` when the listing is unreadable), the device's queue in order (`None` when the read fails)
  and how many envelopes can be sent before one fails. `failed` names the revoked
  devices whose queue could not be emptied, `unacked` the envelopes that could not be deleted.
  */
  datatype Frame =
    | RequestChallenge(device: Device, nonce: Nonce, sent: Sent)
    | ProveDevice(device: Device, signature: string, identity: Option<Identity>,
                  listing: Option<seq<Row>>, failed: set<Device>,
                  sent: Sent, queue: Option<seq<EnvelopeId>>, deliverable: nat)
    | Ack(ids: seq<EnvelopeId>, unacked: set<EnvelopeId>)
    | Other

  /** What the connection does to the outside. */
  datatype Effect =
    | Challenged(nonce: Nonce)
    | Consumed(nonce: Nonce)
    | ClaimResult(device: Device, accepted: bool)
    | Bound(device: Device)
    | Revoked(device: Device, emptied: bool)
    | Drained(device: Device, envelopes: seq<EnvelopeId>)
    | Deleted(device: Device, id: EnvelopeId, done: bool)

  datatype Challenge = Challenge(device: Device, nonce: Nonce)

  /** The connection's claim state; a closed connection handles nothing more. */
  datatype Claim = Claim(open: bool, pending: Option<Challenge>, proven: Option<Device>)

  const Fresh := Claim(true, None, None)

  /** What is fixed for a connection: the feature flag, its session and the signature scheme. */
  datatype Setup = Setup(enabled: bool, session: string, verify: (Identity, Nonce, string, string) -> bool)

  function Take<T>(s: seq<T>, n: nat): (r: seq<T>)
    ensures |r| <= n && r <= s
    ensures |s| <= n ==> r == s
  {
    if |s| <= n then s else s[..n]
  }

  // ----- one frame -----

  predicate Accepts(setup: Setup, pending: Option<Challenge>, f: Frame)
    requires f.ProveDevice?
  {
    && pending.Some? && pending.value.device == f.device && f.identity.Some?
    && setup.verify(f.identity.value, pending.value.nonce, setup.session, f.signature)
  }

  /** The envelopes the drain fetches. */
  function Fetched(f: Frame): seq<EnvelopeId>
    requires f.ProveDevice?
  {
    if f.queue.Some? then Take(f.queue.value, E2EE_DRAIN_LIMIT) else []
  }

  /** `Deleted` for each id, in order. */
  function Deletions(device: Device, ids: seq<EnvelopeId>, unacked: set<EnvelopeId>): (r: seq<Effect>)
    ensures |r| == |ids| && forall i :: 0 <= i < |r| ==> r[i] == Deleted(device, ids[i], ids[i] !in unacked)
  {
    seq(|ids|, i requires 0 <= i < |ids| => Deleted(device, ids[i], ids[i] !in unacked))
  }

  /** A predecessor: another device still bound to this session. */
  predicate Predecessor(row: Row, session: string, keep: Device)
  {
    row.device != keep && row.session == session
  }

  /** `revoke_same_session_predecessors` over the listing: one revocation per predecessor, in order. */
  function Revocations(rows: seq<Row>, session: string, keep: Device, failed: set<Device>): (r: seq<Effect>)
    ensures forall e :: e in r <==>
      exists row :: row in rows && Predecessor(row, session, keep) && e == Revoked(row.device, row.device !in failed)
  {
    if rows == [] then []
    else
      var last := rows[|rows| - 1];
      assert rows == rows[..|rows| - 1] + [last];
      Revocations(rows[..|rows| - 1], session, keep, failed)
      + if Predecessor(last, session, keep) then [Revoked(last.device, last.device !in failed)] else []
  }

  function Sweep(setup: Setup, f: Frame): seq<Effect>
    requires f.ProveDevice?
  {
    if f.listing.Some? then Revocations(f.listing.value, setup.session, f.device, f.failed) else []
  }

  function Next(setup: Setup, c: Claim, f: Frame): Claim
  {
    if !c.open || !setup.enabled then c
    else match f
      case RequestChallenge(device, nonce, sent) =>
        Claim(!sent.TimedOut?, Some(Challenge(device, nonce)), c.proven)
      case ProveDevice(device, _, _, _, _, sent, _, deliverable) =>
        var accepted := Accepts(setup, c.pending, f);
        Claim(sent.Delivered? && (accepted ==> |Fetched(f)| <= deliverable),
              None, if accepted then Some(device) else c.proven)
      case _ => c
  }

  /** The challenge is taken whatever the outcome. */
  function Spending(pending: Option<Challenge>): seq<Effect>
  {
    if pending.Some? then [Consumed(pending.value.nonce)] else []
  }

  function Binding(setup: Setup, f: Frame, accepted: bool): seq<Effect>
    requires f.ProveDevice?
  {
    if accepted then [Bound(f.device)] + Sweep(setup, f) else []
  }

  /** The claim result, then the drain if the reply arrived. */
  function Replying(f: Frame, accepted: bool): seq<Effect>
    requires f.ProveDevice?
  {
    [ClaimResult(f.device, accepted)]
    + if accepted && f.sent.Delivered? then [Drained(f.device, Take(Fetched(f), f.deliverable))] else []
  }

  function Effects(setup: Setup, c: Claim, f: Frame): seq<Effect>
  {
    if !c.open || !setup.enabled then []
    else match f
      case RequestChallenge(_, nonce, _) => [Challenged(nonce)]
      case ProveDevice(_, _, _, _, _, _, _, _) =>
        var accepted := Accepts(setup, c.pending, f);
        Spending(c.pending) + Binding(setup, f, accepted) + Replying(f, accepted)
      case Ack(ids, unacked) =>
        if c.proven.Some? then Deletions(c.proven.value, Take(ids, E2EE_MAX_ACK_BATCH), unacked) else []
      case Other => []
  }

  // ----- the worker -----

  class Worker {
    const setup: Setup
    var open: bool
    var pendingChallenge: Option<Challenge>
    var provenDevice: Option<Device>
    var log: seq<Effect>

    ghost function State(): Claim
      reads this
    {
      Claim(open, pendingChallenge, provenDevice)
    }

    constructor (setup: Setup)
      ensures this.setup == setup && State() == Fresh && log == []
    {
      this.setup := setup;
      open, pendingChallenge, provenDevice, log := true, None, None, [];
    }

    /** One turn of the worker's loop. */
    method Handle(f: Frame)
      requires open
      modifies this
      ensures State() == Next(setup, old(State()), f)
      ensures log == old(log) + Effects(setup, old(State()), f)
    {
      if !setup.enabled { return; }
      match f {
        case RequestChallenge(device, nonce, sent) =>
          pendingChallenge := Some(Challenge(device, nonce));
          log := log + [Challenged(nonce)];
          open := !sent.TimedOut?;
        case ProveDevice(_, _, _, _, _, _, _, _) => Prove(f);
        case Ack(ids, unacked) =>
          if provenDevice.Some? { Acknowledge(ids, unacked); }
        case Other =>
      }
    }

    method Prove(f: Frame)
      requires open && setup.enabled && f.ProveDevice?
      modifies this
      ensures State() == Next(setup, old(State()), f)
      ensures log == old(log) + Effects(setup, old(State()), f)
    {
      var challenge := pendingChallenge;
      pendingChallenge := None;
      if challenge.Some? { log := log + [Consumed(challenge.value.nonce)]; }
      var accepted := false;
      if challenge.Some? && challenge.value.device == f.device && f.identity.Some? {
        accepted := setup.verify(f.identity.value, challenge.value.nonce, setup.session, f.signature);
      }
      if accepted {
        provenDevice := Some(f.device);
        log := log + [Bound(f.device)];
        SweepPredecessors(f);
      }
      log := log + [ClaimResult(f.device, accepted)];
      if !f.sent.Delivered? {
        open := false;
        return;
      }
      if accepted { Drain(f); }
    }

    /** `revoke_same_session_predecessors`: best-effort, and nothing at all when the listing is unreadable. */
    method SweepPredecessors(f: Frame)
      requires f.ProveDevice?
      modifies this`log
      ensures log == old(log) + Sweep(setup, f)
    {
      if f.listing.None? { return; }
      var rows := f.listing.value;
      for i := 0 to |rows|
        invariant log == old(log) + Revocations(rows[..i], setup.session, f.device, f.failed)
      {
        assert rows[..i + 1][..i] == rows[..i];
        if rows[i].device != f.device && rows[i].session == setup.session {
          log := log + [Revoked(rows[i].device, rows[i].device !in f.failed)];
        }
      }
      assert rows[..|rows|] == rows;
    }

    /** Sends the queue in order until it ends or a send fails. */
    method Drain(f: Frame)
      requires f.ProveDevice? && open
      modifies this`log, this`open
      ensures log == old(log) + [Drained(f.device, Take(Fetched(f), f.deliverable))]
      ensures open == (|Fetched(f)| <= f.deliverable)
    {
      var envelopes := [];
      if f.queue.Some? {
        envelopes := if |f.queue.value| <= E2EE_DRAIN_LIMIT then f.queue.value else f.queue.value[..E2EE_DRAIN_LIMIT];
      }
      var done := [];
      while |done| < |envelopes| && open
        invariant |done| <= |envelopes| && |done| <= f.deliverable && done == envelopes[..|done|]
        invariant !open ==> |done| == f.deliverable < |envelopes|
        invariant log == old(log)
        decreases |envelopes| - |done|, open
      {
        if |done| == f.deliverable {
          open := false;
        } else {
          done := done + [envelopes[|done|]];
        }
      }
      assert envelopes == Fetched(f) && done == Take(envelopes, f.deliverable);
      log := log + [Drained(f.device, done)];
    }

    method Acknowledge(ids: seq<EnvelopeId>, unacked: set<EnvelopeId>)
      requires provenDevice.Some?
      modifies this`log
      ensures log == old(log) + Deletions(provenDevice.value, Take(ids, E2EE_MAX_ACK_BATCH), unacked)
    {
      var batch := if |ids| <= E2EE_MAX_ACK_BATCH then ids else ids[..E2EE_MAX_ACK_BATCH];
      var device := provenDevice.value;
      for i := 0 to |batch|
        invariant log == old(log) + Deletions(device, batch[..i], unacked)
      {
        var effect := Deleted(device, batch[i], batch[i] !in unacked);
        assert Deletions(device, batch[..i + 1], unacked) == Deletions(device, batch[..i], unacked) + [effect];
        log := log + [effect];
      }
      assert batch[..|batch|] == batch;
    }
  }

  // ----- a whole connection -----

  function After(setup: Setup, frames: seq<Frame>): Claim
  {
    if frames == [] then Fresh else Next(setup, After(setup, frames[..|frames| - 1]), frames[|frames| - 1])
  }

  /** What handling frame `k` does. */
  function EffectsOf(setup: Setup, frames: seq<Frame>, k: nat): seq<Effect>
    requires k < |frames|
  {
    Effects(setup, After(setup, frames[..k]), frames[k])
  }

  /** The challenge issued by frame `i` is the latest one, and no proof was tried on it, before frame `j`. */
  predicate Outstanding(frames: seq<Frame>, i: int, j: int)
  {
    && 0 <= i < j <= |frames| && frames[i].RequestChallenge?
    && forall m :: i < m < j ==> !frames[m].RequestChallenge? && !frames[m].ProveDevice?
  }

  /** Frame `j` proves its device on the challenge that frame `i` issued for it. */
  predicate ProvedOn(setup: Setup, frames: seq<Frame>, i: int, j: int)
  {
    && Outstanding(frames, i, j) && j < |frames| && frames[j].ProveDevice?
    && frames[j].device == frames[i].device && frames[j].identity.Some?
    && setup.verify(frames[j].identity.value, frames[i].nonce, setup.session, frames[j].signature)
  }

  /** Frame `j` proves its device on the latest challenge before it. */
  ghost predicate Proves(setup: Setup, frames: seq<Frame>, j: int)
  {
    exists i :: ProvedOn(setup, frames, i, j)
  }

  /** Frame `j` is the last of `frames` that proves its device. */
  ghost predicate LastProof(setup: Setup, frames: seq<Frame>, i: int, j: int)
  {
    ProvedOn(setup, frames, i, j) && forall i', j' :: ProvedOn(setup, frames, i', j') ==> j' <= j
  }

  /** The pending challenge is the one outstanding; without one none is. */
  ghost predicate PendingExplained(frames: seq<Frame>, pending: Option<Challenge>)
  {
    if pending.Some? then
      exists i :: Outstanding(frames, i, |frames|) && Challenge(frames[i].device, frames[i].nonce) == pending.value
    else
      forall i :: !Outstanding(frames, i, |frames|)
  }

  /** The proven device is that of the last proof; without one there was none. */
  ghost predicate ProvenExplained(setup: Setup, frames: seq<Frame>, proven: Option<Device>)
  {
    if proven.Some? then
      exists i, j :: LastProof(setup, frames, i, j) && frames[j].device == proven.value
    else
      forall i, j :: !ProvedOn(setup, frames, i, j)
  }

  lemma OneOutstanding(frames: seq<Frame>, i: int, i': int, j: int)
    requires Outstanding(frames, i, j) && Outstanding(frames, i', j)
    ensures i == i'
  {
  }

  /** One more frame changes nothing about the earlier ones. */
  lemma OutstandingBefore(frames: seq<Frame>, f: Frame, i: int, j: int)
    requires j <= |frames|
    ensures Outstanding(frames + [f], i, j) <==> Outstanding(frames, i, j)
  {
    OutstandingInPrefix(frames + [f], frames, i, j);
  }

  lemma OutstandingNow(frames: seq<Frame>, f: Frame, i: int)
    ensures Outstanding(frames + [f], i, |frames| + 1) <==>
      (if i == |frames| then f.RequestChallenge?
       else Outstanding(frames, i, |frames|) && !f.RequestChallenge? && !f.ProveDevice?)
  {
    var frames' := frames + [f];
    assert frames'[|frames|] == f;
    assert forall m :: 0 <= m < |frames| ==> frames'[m] == frames[m];
  }

  lemma StepExplainsPending(setup: Setup, frames: seq<Frame>, c: Claim, f: Frame)
    requires c.open && setup.enabled && PendingExplained(frames, c.pending)
    ensures PendingExplained(frames + [f], Next(setup, c, f).pending)
  {
    var frames' := frames + [f];
    var pending := Next(setup, c, f).pending;
    forall i
      ensures Outstanding(frames', i, |frames'|) <==>
        (if i == |frames| then f.RequestChallenge?
         else Outstanding(frames, i, |frames|) && !f.RequestChallenge? && !f.ProveDevice?)
    {
      OutstandingNow(frames, f, i);
    }
    if f.RequestChallenge? {
      assert Outstanding(frames', |frames|, |frames'|) && frames'[|frames|] == f;
    } else if !f.ProveDevice? && c.pending.Some? {
      var i :| Outstanding(frames, i, |frames|) && Challenge(frames[i].device, frames[i].nonce) == c.pending.value;
      assert Outstanding(frames', i, |frames'|) && frames'[i] == frames[i];
    }
  }

  lemma ProvedBefore(setup: Setup, frames: seq<Frame>, f: Frame, i: int, j: int)
    requires j < |frames|
    ensures ProvedOn(setup, frames + [f], i, j) <==> ProvedOn(setup, frames, i, j)
  {
    OutstandingBefore(frames, f, i, j);
  }

  /** The guard of the proof arm, in terms of the history. */
  lemma AcceptsIffProved(setup: Setup, frames: seq<Frame>, pending: Option<Challenge>, f: Frame)
    requires PendingExplained(frames, pending) && f.ProveDevice?
    ensures Accepts(setup, pending, f) <==> Proves(setup, frames + [f], |frames|)
  {
    var frames', n := frames + [f], |frames|;
    assert frames'[n] == f;
    forall i
      ensures Outstanding(frames', i, n) <==> Outstanding(frames, i, n)
    {
      OutstandingBefore(frames, f, i, n);
    }
    if pending.Some? {
      var i :| Outstanding(frames, i, n) && Challenge(frames[i].device, frames[i].nonce) == pending.value;
      assert Outstanding(frames', i, n) && frames'[i] == frames[i];
      forall i' | ProvedOn(setup, frames', i', n)
        ensures i' == i
      {
        OneOutstanding(frames', i, i', n);
      }
      assert Accepts(setup, pending, f) <==> ProvedOn(setup, frames', i, n);
    }
  }

  lemma StepExplainsProven(setup: Setup, frames: seq<Frame>, c: Claim, f: Frame)
    requires c.open && setup.enabled && PendingExplained(frames, c.pending) && ProvenExplained(setup, frames, c.proven)
    ensures ProvenExplained(setup, frames + [f], Next(setup, c, f).proven)
  {
    var frames', n := frames + [f], |frames|;
    assert frames'[n] == f;
    forall i, j | j < n
      ensures ProvedOn(setup, frames', i, j) <==> ProvedOn(setup, frames, i, j)
    {
      ProvedBefore(setup, frames, f, i, j);
    }
    if f.ProveDevice? { AcceptsIffProved(setup, frames, c.pending, f); }
    if f.ProveDevice? && Accepts(setup, c.pending, f) {
      var i :| ProvedOn(setup, frames', i, n);
      assert LastProof(setup, frames', i, n);
    } else if c.proven.Some? {
      var i, j :| LastProof(setup, frames, i, j) && frames[j].device == c.proven.value;
      assert ProvedOn(setup, frames', i, j) && frames'[j] == frames[j];
      assert LastProof(setup, frames', i, j);
    }
  }

  /** While the connection is open its claim state is what its history says, in both directions. */
  lemma {:induction false} StateIsExplained(setup: Setup, frames: seq<Frame>)
    requires setup.enabled && After(setup, frames).open
    ensures PendingExplained(frames, After(setup, frames).pending)
    ensures ProvenExplained(setup, frames, After(setup, frames).proven)
  {
    if frames != [] {
      var before, f := frames[..|frames| - 1], frames[|frames| - 1];
      StateIsExplained(setup, before);
      assert frames == before + [f];
      StepExplainsPending(setup, before, After(setup, before), f);
      StepExplainsProven(setup, before, After(setup, before), f);
    }
  }

  /** Whether a frame proves its device depends only on the frames up to it. */
  lemma ProvesInPrefix(setup: Setup, frames: seq<Frame>, k: nat)
    requires k < |frames|
    ensures Proves(setup, frames[..k] + [frames[k]], k) <==> Proves(setup, frames, k)
  {
    var prefix := frames[..k] + [frames[k]];
    assert forall m :: 0 <= m <= k ==> prefix[m] == frames[m];
    forall i
      ensures ProvedOn(setup, prefix, i, k) <==> ProvedOn(setup, frames, i, k)
    {
      OutstandingInPrefix(frames, prefix, i, k);
    }
  }

  lemma OutstandingInPrefix(frames: seq<Frame>, prefix: seq<Frame>, i: int, j: int)
    requires prefix <= frames && j <= |prefix|
    ensures Outstanding(prefix, i, j) <==> Outstanding(frames, i, j)
  {
    assert forall m :: 0 <= m < |prefix| ==> prefix[m] == frames[m];
  }

  /** Frame `j` proved `device` on the challenge of frame `i`, and is the last proof before frame `k`. */
  ghost predicate ProvenAt(setup: Setup, frames: seq<Frame>, i: int, j: int, device: Device, k: nat)
    requires k <= |frames|
  {
    LastProof(setup, frames[..k], i, j) && frames[j].device == device
  }

  /** `device` is the proven one when frame `k` arrives. */
  ghost predicate Proven(setup: Setup, frames: seq<Frame>, device: Device, k: nat)
    requires k <= |frames|
  {
    exists i, j :: ProvenAt(setup, frames, i, j, device, k)
  }

  /** The connection still handles frames when frame `k` arrives. */
  predicate Handles(setup: Setup, frames: seq<Frame>, k: nat)
    requires k <= |frames|
  {
    setup.enabled && After(setup, frames[..k]).open
  }

  lemma ProvenIff(setup: Setup, frames: seq<Frame>, device: Device, k: nat)
    requires k <= |frames| && Handles(setup, frames, k)
    ensures After(setup, frames[..k]).proven == Some(device) <==> Proven(setup, frames, device, k)
  {
    var before := frames[..k];
    var proven := After(setup, before).proven;
    StateIsExplained(setup, before);
    if proven.Some? {
      var i, j :| LastProof(setup, before, i, j) && before[j].device == proven.value;
      assert ProvenAt(setup, frames, i, j, proven.value, k);
      forall i', j' | ProvenAt(setup, frames, i', j', device, k)
        ensures device == proven.value
      {
        assert ProvedOn(setup, before, i', j') && ProvedOn(setup, before, i, j);
        assert j' == j;
      }
    }
  }

  /** The ids one acknowledgement counts for: the first 128 it lists. */
  function Batch(ids: seq<EnvelopeId>): seq<EnvelopeId>
  {
    if |ids| <= 128 then ids else ids[..128]
  }

  /**
  An acknowledgement deletes an envelope exactly when its id is in the batch, for the device of the
  last proof before it, that proof being on the latest nonce issued for it.
  */
  lemma AckDeletesIff(setup: Setup, frames: seq<Frame>, k: nat, device: Device, id: EnvelopeId, done: bool)
    requires k < |frames|
    ensures Deleted(device, id, done) in EffectsOf(setup, frames, k) <==>
      && Handles(setup, frames, k) && frames[k].Ack? && Proven(setup, frames, device, k)
      && id in Batch(frames[k].ids) && (done <==> id !in frames[k].unacked)
  {
    if Handles(setup, frames, k) {
      ProvenIff(setup, frames, device, k);
      if frames[k].Ack? && After(setup, frames[..k]).proven.Some? {
        var proven := After(setup, frames[..k]).proven.value;
        assert Take(frames[k].ids, E2EE_MAX_ACK_BATCH) == Batch(frames[k].ids);
        DeletionsHold(proven, Batch(frames[k].ids), frames[k].unacked, device, id, done);
      }
    }
  }

  lemma DeletionsHold(proven: Device, ids: seq<EnvelopeId>, unacked: set<EnvelopeId>, device: Device, id: EnvelopeId,
                      done: bool)
    ensures Deleted(device, id, done) in Deletions(proven, ids, unacked) <==>
      device == proven && id in ids && (done <==> id !in unacked)
  {
    var r := Deletions(proven, ids, unacked);
    if device == proven && id in ids && (done <==> id !in unacked) {
      var i :| 0 <= i < |ids| && ids[i] == id;
      assert r[i] == Deleted(device, id, done);
    }
  }

  /**
  The sweep revokes a device exactly when another device is proven by this very frame while the
  listing still binds it to this session; no proof of the revoked device is needed.
  */
  lemma SweepRevokesIff(setup: Setup, frames: seq<Frame>, k: nat, device: Device, emptied: bool)
    requires k < |frames|
    ensures Revoked(device, emptied) in EffectsOf(setup, frames, k) <==>
      && Handles(setup, frames, k) && Proves(setup, frames, k) && frames[k].device != device
      && frames[k].listing.Some? && Row(device, setup.session) in frames[k].listing.value
      && (emptied <==> device !in frames[k].failed)
  {
    if Handles(setup, frames, k) && frames[k].ProveDevice? {
      var before := frames[..k];
      StateIsExplained(setup, before);
      AcceptsIffProved(setup, before, After(setup, before).pending, frames[k]);
      ProvesInPrefix(setup, frames, k);
      SweepHolds(setup, frames[k], device, emptied);
    }
  }

  lemma SweepHolds(setup: Setup, f: Frame, device: Device, emptied: bool)
    requires f.ProveDevice?
    ensures Revoked(device, emptied) in Sweep(setup, f) <==>
      && device != f.device && f.listing.Some? && Row(device, setup.session) in f.listing.value
      && (emptied <==> device !in f.failed)
  {
    if device != f.device && f.listing.Some? && Row(device, setup.session) in f.listing.value {
      assert Predecessor(Row(device, setup.session), setup.session, f.device);
    }
  }

  /** Every drain names the device this very frame proves, on the latest nonce issued for it. */
  lemma DrainIsProven(setup: Setup, frames: seq<Frame>, k: nat, e: Effect)
    requires k < |frames| && e in EffectsOf(setup, frames, k) && (e.Drained? || e.Bound?)
    ensures frames[k].ProveDevice? && frames[k].device == e.device
    ensures Proves(setup, frames, k)
    ensures e.Drained? ==> |e.envelopes| <= 1024
    ensures e.Drained? ==> e.envelopes <= if frames[k].queue.Some? then frames[k].queue.value else []
  {
    var before := frames[..k];
    StateIsExplained(setup, before);
    AcceptsIffProved(setup, before, After(setup, before).pending, frames[k]);
    ProvesInPrefix(setup, frames, k);
  }

  /** A proof is accepted exactly when the history has an unused latest challenge for the device that it signs. */
  lemma ClaimResultIff(setup: Setup, frames: seq<Frame>, k: nat, accepted: bool)
    requires k < |frames| && setup.enabled && After(setup, frames[..k]).open && frames[k].ProveDevice?
    ensures ClaimResult(frames[k].device, accepted) in EffectsOf(setup, frames, k) <==>
      accepted == Proves(setup, frames, k)
  {
    var before := frames[..k];
    StateIsExplained(setup, before);
    AcceptsIffProved(setup, before, After(setup, before).pending, frames[k]);
    ProvesInPrefix(setup, frames, k);
  }

  /** One acknowledgement deletes, in order, the first 128 ids it lists, or nothing while no device is proven. */
  lemma AckDeletesBatch(setup: Setup, frames: seq<Frame>, k: nat)
    requires k < |frames| && frames[k].Ack?
    ensures var effects := EffectsOf(setup, frames, k);
      && |effects| == (if Handles(setup, frames, k) && SomeProven(setup, frames, k) then |Batch(frames[k].ids)| else 0)
      && |effects| <= 128
      && forall m :: 0 <= m < |effects| ==> effects[m].Deleted? && effects[m].id == frames[k].ids[m]
  {
    assert Take(frames[k].ids, E2EE_MAX_ACK_BATCH) == Batch(frames[k].ids);
    if Handles(setup, frames, k) {
      var proven := After(setup, frames[..k]).proven;
      forall d ensures proven == Some(d) <==> Proven(setup, frames, d, k) { ProvenIff(setup, frames, d, k); }
      if proven.Some? { assert Proven(setup, frames, proven.value, k); }
    }
  }

  ghost predicate SomeProven(setup: Setup, frames: seq<Frame>, k: nat)
    requires k <= |frames|
  {
    exists d :: Proven(setup, frames, d, k)
  }

  // ----- what a frame does, and nothing else -----

  /** What an accepted proof delivers: the queue in order, up to 1024 envelopes or the first that cannot be sent. */
  function Deliverable(f: Frame): seq<EnvelopeId>
    requires f.ProveDevice?
  {
    if f.queue.None? then []
    else
      var n := if |f.queue.value| <= 1024 then |f.queue.value| else 1024;
      f.queue.value[..if n <= f.deliverable then n else f.deliverable]
  }

  lemma DrainTakes(f: Frame)
    requires f.ProveDevice?
    ensures Take(Fetched(f), f.deliverable) == Deliverable(f)
    ensures f.deliverable < |Fetched(f)| <==>
      f.queue.Some? && f.deliverable < |f.queue.value| && f.deliverable < 1024
  {
  }

  /** The guard of the proof arm at frame `k` of a connection that handles it. */
  lemma AcceptsAt(setup: Setup, frames: seq<Frame>, k: nat)
    requires k < |frames| && Handles(setup, frames, k) && frames[k].ProveDevice?
    ensures Accepts(setup, After(setup, frames[..k]).pending, frames[k]) <==> Proves(setup, frames, k)
  {
    var before := frames[..k];
    StateIsExplained(setup, before);
    AcceptsIffProved(setup, before, After(setup, before).pending, frames[k]);
    ProvesInPrefix(setup, frames, k);
  }

  /**
  A frame drains exactly when it proves its device and its reply arrives: once, for that device, and the whole
  queue up to 1024 envelopes or the first send that fails.
  */
  lemma DrainIff(setup: Setup, frames: seq<Frame>, k: nat, device: Device, envelopes: seq<EnvelopeId>)
    requires k < |frames|
    ensures Times(EffectsOf(setup, frames, k), Drained(device, envelopes)) ==
      if Handles(setup, frames, k) && Proves(setup, frames, k) && frames[k].sent.Delivered?
         && device == frames[k].device && envelopes == Deliverable(frames[k]) then 1 else 0
  {
    if Handles(setup, frames, k) && frames[k].ProveDevice? {
      AcceptsAt(setup, frames, k);
      DrainTakes(frames[k]);
      ProofDrains(setup, After(setup, frames[..k]), frames[k], Drained(device, envelopes));
    }
  }

  lemma ProofDrains(setup: Setup, c: Claim, f: Frame, e: Effect)
    requires c.open && setup.enabled && f.ProveDevice? && e.Drained?
    ensures Times(Effects(setup, c, f), e) ==
      if Accepts(setup, c.pending, f) && f.sent.Delivered? && e == Drained(f.device, Take(Fetched(f), f.deliverable))
      then 1 else 0
  {
    var accepted := Accepts(setup, c.pending, f);
    var spent, bound, replied := Spending(c.pending), Binding(setup, f, accepted), Replying(f, accepted);
    TimesConcat(spent + bound, replied, e);
    TimesConcat(spent, bound, e);
    assert e !in spent && e !in bound;
  }

  /** A frame binds a device exactly when it proves it. */
  lemma BoundIff(setup: Setup, frames: seq<Frame>, k: nat, device: Device)
    requires k < |frames|
    ensures Bound(device) in EffectsOf(setup, frames, k) <==>
      Handles(setup, frames, k) && Proves(setup, frames, k) && device == frames[k].device
  {
    if Handles(setup, frames, k) && frames[k].ProveDevice? { AcceptsAt(setup, frames, k); }
  }

  /** A frame issues a nonce exactly when it asks for a challenge; the nonce is the generated one. */
  lemma ChallengedIff(setup: Setup, frames: seq<Frame>, k: nat, nonce: Nonce)
    requires k < |frames|
    ensures Challenged(nonce) in EffectsOf(setup, frames, k) <==>
      Handles(setup, frames, k) && frames[k].RequestChallenge? && nonce == frames[k].nonce
  {
  }

  /** A frame uses a nonce up exactly when it tries a proof while the challenge that issued it is outstanding. */
  lemma ConsumedIff(setup: Setup, frames: seq<Frame>, k: nat, nonce: Nonce)
    requires k < |frames|
    ensures Consumed(nonce) in EffectsOf(setup, frames, k) <==>
      && Handles(setup, frames, k) && frames[k].ProveDevice?
      && exists i :: Outstanding(frames, i, k) && frames[i].nonce == nonce
  {
    if Handles(setup, frames, k) {
      var before := frames[..k];
      StateIsExplained(setup, before);
      forall i ensures Outstanding(before, i, k) <==> Outstanding(frames, i, k) {
        OutstandingInPrefix(frames, before, i, k);
      }
      if After(setup, before).pending.Some? {
        var i :| Outstanding(before, i, k)
                 && Challenge(before[i].device, before[i].nonce) == After(setup, before).pending.value;
        forall j | Outstanding(frames, j, k) ensures j == i { OneOutstanding(frames, i, j, k); }
        assert Outstanding(frames, i, k) && frames[i] == before[i];
      }
    }
  }

  /** What ends a connection: a challenge that times out, a claim result not delivered, a drain cut short. */
  ghost predicate Ends(setup: Setup, frames: seq<Frame>, k: nat)
    requires k < |frames|
  {
    var f := frames[k];
    || (f.RequestChallenge? && f.sent.TimedOut?)
    || (f.ProveDevice? && !f.sent.Delivered?)
    || (f.ProveDevice? && Proves(setup, frames, k) && f.queue.Some? && f.deliverable < |f.queue.value|
        && f.deliverable < 1024)
  }

  /** An open connection stays open exactly when the frame does not end it. */
  lemma OpenIff(setup: Setup, frames: seq<Frame>, k: nat)
    requires k < |frames| && Handles(setup, frames, k)
    ensures Handles(setup, frames, k + 1) <==> !Ends(setup, frames, k)
  {
    assert frames[..k + 1][..k] == frames[..k];
    if frames[k].ProveDevice? {
      AcceptsAt(setup, frames, k);
      DrainTakes(frames[k]);
    }
  }

  // ----- a nonce is used once -----

  /** How often nonce `n` was issued. */
  function Issued(setup: Setup, frames: seq<Frame>, n: nat, nonce: Nonce): nat
    requires n <= |frames|
  {
    if n == 0 then 0
    else Issued(setup, frames, n - 1, nonce) + multiset(EffectsOf(setup, frames, n - 1))[Challenged(nonce)]
  }

  /** How often a proof attempt used nonce `n` up. */
  function Spent(setup: Setup, frames: seq<Frame>, n: nat, nonce: Nonce): nat
    requires n <= |frames|
  {
    if n == 0 then 0
    else Spent(setup, frames, n - 1, nonce) + multiset(EffectsOf(setup, frames, n - 1))[Consumed(nonce)]
  }

  function Held(c: Claim, nonce: Nonce): nat
  {
    if c.pending.Some? && c.pending.value.nonce == nonce then 1 else 0
  }

  /** How often an effect occurs. */
  ghost function Times(effects: seq<Effect>, e: Effect): nat
  {
    multiset(effects)[e]
  }

  lemma TimesConcat(a: seq<Effect>, b: seq<Effect>, e: Effect)
    ensures Times(a + b, e) == Times(a, e) + Times(b, e)
  {
  }

  lemma StepConservesNonces(setup: Setup, c: Claim, f: Frame, nonce: Nonce)
    ensures var effects := multiset(Effects(setup, c, f));
      effects[Consumed(nonce)] + Held(Next(setup, c, f), nonce) <= effects[Challenged(nonce)] + Held(c, nonce)
  {
    if c.open && setup.enabled && f.ProveDevice? {
      ProofSpends(setup, c, f, nonce);
    }
  }

  /** A proof attempt spends the pending nonce, whatever else it does. */
  lemma ProofSpends(setup: Setup, c: Claim, f: Frame, nonce: Nonce)
    requires c.open && setup.enabled && f.ProveDevice?
    ensures Times(Effects(setup, c, f), Consumed(nonce)) == Held(c, nonce)
  {
    var e, accepted := Consumed(nonce), Accepts(setup, c.pending, f);
    var spent, bound, replied := Spending(c.pending), Binding(setup, f, accepted), Replying(f, accepted);
    TimesConcat(spent + bound, replied, e);
    TimesConcat(spent, bound, e);
    assert e !in bound && e !in replied;
  }

  /** A nonce is spent or held at most as often as it was issued: once, when the generator does not repeat itself. */
  lemma {:induction false} NoncesAreSingleUse(setup: Setup, frames: seq<Frame>, n: nat, nonce: Nonce)
    requires n <= |frames|
    ensures Spent(setup, frames, n, nonce) + Held(After(setup, frames[..n]), nonce) <= Issued(setup, frames, n, nonce)
  {
    if n > 0 {
      NoncesAreSingleUse(setup, frames, n - 1, nonce);
      assert frames[..n][..n - 1] == frames[..n - 1];
      StepConservesNonces(setup, After(setup, frames[..n - 1]), frames[n - 1], nonce);
    }
  }

  // ----- what is left in the queue -----

  datatype Envelope = Envelope(user: string, device: Device)

  type Queue = map<EnvelopeId, Envelope>

  /** `delete_e2ee_envelope` and `delete_e2ee_device`: only envelopes of this user and device go. */
  predicate Removes(user: string, e: Effect, id: EnvelopeId, envelope: Envelope)
  {
    envelope.user == user && (e == Deleted(envelope.device, id, true) || e == Revoked(envelope.device, true))
  }

  function Remove(queue: Queue, user: string, e: Effect): Queue
  {
    map id | id in queue && !Removes(user, e, id, queue[id]) :: queue[id]
  }

  function RemoveAll(queue: Queue, user: string, effects: seq<Effect>): Queue
  {
    if effects == [] then queue
    else Remove(RemoveAll(queue, user, effects[..|effects| - 1]), user, effects[|effects| - 1])
  }

  /** The queue after the first `n` frames of the connection. */
  function QueueAfter(setup: Setup, user: string, queue: Queue, frames: seq<Frame>, n: nat): Queue
    requires n <= |frames|
  {
    if n == 0 then queue
    else RemoveAll(QueueAfter(setup, user, queue, frames, n - 1), user, EffectsOf(setup, frames, n - 1))
  }

  ghost predicate SomeRemoves(user: string, effects: seq<Effect>, id: EnvelopeId, envelope: Envelope)
  {
    exists e :: e in effects && Removes(user, e, id, envelope)
  }

  lemma {:induction false} RemoveAllRemoves(queue: Queue, user: string, effects: seq<Effect>, id: EnvelopeId)
    ensures var after := RemoveAll(queue, user, effects);
      && (id in after <==> id in queue && !SomeRemoves(user, effects, id, queue[id]))
      && (id in after ==> after[id] == queue[id])
  {
    if effects != [] {
      var before, last := effects[..|effects| - 1], effects[|effects| - 1];
      RemoveAllRemoves(queue, user, before, id);
      assert effects == before + [last];
      assert last in effects;
      if id in queue && SomeRemoves(user, before, id, queue[id]) {
        var e :| e in before && Removes(user, e, id, queue[id]);
        assert e in effects;
      }
    }
  }

  /** Frame `k` acknowledges envelope `id` while its device is the proven one, and the deletion succeeds. */
  ghost predicate AckedAt(setup: Setup, frames: seq<Frame>, k: nat, id: EnvelopeId, device: Device)
    requires k < |frames|
  {
    && Handles(setup, frames, k) && frames[k].Ack? && Proven(setup, frames, device, k)
    && id in Batch(frames[k].ids) && id !in frames[k].unacked
  }

  /** Frame `k` proves another device while `device`'s row is bound to this session, and its queue is emptied. */
  ghost predicate SweptAt(setup: Setup, frames: seq<Frame>, k: nat, device: Device)
    requires k < |frames|
  {
    && Handles(setup, frames, k) && Proves(setup, frames, k) && frames[k].device != device
    && frames[k].listing.Some? && Row(device, setup.session) in frames[k].listing.value && device !in frames[k].failed
  }

  ghost predicate LostAt(setup: Setup, frames: seq<Frame>, k: nat, id: EnvelopeId, device: Device)
    requires k < |frames|
  {
    AckedAt(setup, frames, k, id, device) || SweptAt(setup, frames, k, device)
  }

  ghost predicate LostWithin(setup: Setup, frames: seq<Frame>, n: nat, id: EnvelopeId, device: Device)
    requires n <= |frames|
  {
    exists k :: 0 <= k < n && LostAt(setup, frames, k, id, device)
  }

  lemma FrameRemovesIff(setup: Setup, user: string, frames: seq<Frame>, k: nat, id: EnvelopeId, envelope: Envelope)
    requires k < |frames|
    ensures SomeRemoves(user, EffectsOf(setup, frames, k), id, envelope) <==>
      envelope.user == user && LostAt(setup, frames, k, id, envelope.device)
  {
    var effects := EffectsOf(setup, frames, k);
    AckDeletesIff(setup, frames, k, envelope.device, id, true);
    SweepRevokesIff(setup, frames, k, envelope.device, true);
    if envelope.user == user && Deleted(envelope.device, id, true) in effects {
      assert Removes(user, Deleted(envelope.device, id, true), id, envelope);
    }
    if envelope.user == user && Revoked(envelope.device, true) in effects {
      assert Removes(user, Revoked(envelope.device, true), id, envelope);
    }
  }

  /**
  An envelope is lost over a connection if and only if it is this user's and either it was acknowledged in a
  batch while its device was the proven one, or another device was proven while its own was bound to the session.
  */
  lemma {:induction false} LostIff(setup: Setup, user: string, queue: Queue, frames: seq<Frame>, n: nat, id: EnvelopeId)
    requires n <= |frames| && id in queue
    ensures var after := QueueAfter(setup, user, queue, frames, n);
      && (id in after ==> after[id] == queue[id])
      && (id !in after <==> queue[id].user == user && LostWithin(setup, frames, n, id, queue[id].device))
  {
    if n > 0 {
      LostIff(setup, user, queue, frames, n - 1, id);
      var before := QueueAfter(setup, user, queue, frames, n - 1);
      RemoveAllRemoves(before, user, EffectsOf(setup, frames, n - 1), id);
      FrameRemovesIff(setup, user, frames, n - 1, id, queue[id]);
      LostWithinStep(setup, frames, n, id, queue[id].device);
    }
  }

  lemma LostWithinStep(setup: Setup, frames: seq<Frame>, n: nat, id: EnvelopeId, device: Device)
    requires 0 < n <= |frames|
    ensures LostWithin(setup, frames, n, id, device) <==>
      LostWithin(setup, frames, n - 1, id, device) || LostAt(setup, frames, n - 1, id, device)
  {
  }

  /** Nothing appears in the queue. */
  lemma {:induction false} QueueOnlyShrinks(setup: Setup, user: string, queue: Queue, frames: seq<Frame>, n: nat,
                                            id: EnvelopeId)
    requires n <= |frames| && id !in queue
    ensures id !in QueueAfter(setup, user, queue, frames, n)
  {
    if n > 0 {
      QueueOnlyShrinks(setup, user, queue, frames, n - 1, id);
      RemoveAllRemoves(QueueAfter(setup, user, queue, frames, n - 1), user, EffectsOf(setup, frames, n - 1), id);
    }
  }

  /** One claim of a device: its own key, a nonce, and a signature over that nonce. */
  datatype Credential = Credential(device: Device, nonce: Nonce, key: Identity, signature: string)

  predicate Verifies(setup: Setup, c: Credential)
  {
    setup.verify(c.key, c.nonce, setup.session, c.signature)
  }

  /** Two devices claimed one after the other on one connection. */
  function TwoClaims(setup: Setup, a: Credential, b: Credential): seq<Frame>
  {
    var rowA, rowB := Row(a.device, setup.session), Row(b.device, setup.session);
    [RequestChallenge(a.device, a.nonce, Delivered),
     ProveDevice(a.device, a.signature, Some(a.key), Some([rowA]), {}, Delivered, Some([]), 0),
     RequestChallenge(b.device, b.nonce, Delivered),
     ProveDevice(b.device, b.signature, Some(b.key), Some([rowA, rowB]), {}, Delivered, Some([]), 0)]
  }

  /**
  Proof and acknowledgement are not what it takes to lose an envelope: when two devices are claimed in turn, each
  with its own key and nonce, every envelope of the first is gone, and no frame acknowledged anything.
  */
  lemma SecondClaimEmptiesFirst(setup: Setup, user: string, queue: Queue, a: Credential, b: Credential, id: EnvelopeId)
    requires setup.enabled && a.device != b.device && a.nonce != b.nonce && Verifies(setup, a) && Verifies(setup, b)
    requires id in queue && queue[id] == Envelope(user, a.device)
    ensures var frames := TwoClaims(setup, a, b);
      && (forall k :: 0 <= k < |frames| ==> !frames[k].Ack?)
      && id !in QueueAfter(setup, user, queue, frames, |frames|)
  {
    var frames := TwoClaims(setup, a, b);
    TwoClaimsState(setup, a, b);
    assert ProvedOn(setup, frames, 2, 3);
    assert SweptAt(setup, frames, 3, a.device) by {
      assert Row(a.device, setup.session) == frames[3].listing.value[0];
    }
    assert LostAt(setup, frames, 3, id, a.device);
    LostIff(setup, user, queue, frames, 4, id);
  }

  lemma TwoClaimsState(setup: Setup, a: Credential, b: Credential)
    requires setup.enabled && Verifies(setup, a)
    ensures After(setup, TwoClaims(setup, a, b)[..3]).open
  {
    var frames := TwoClaims(setup, a, b);
    var f0, f1, f2 := frames[..1], frames[..2], frames[..3];
    assert f2[..2] == f1 && f1[..1] == f0 && f0[..0] == [];
    assert After(setup, f0[..0]) == Fresh;
    assert After(setup, f0) == Claim(true, Some(Challenge(a.device, a.nonce)), None);
    assert After(setup, f1) == Claim(true, None, Some(a.device));
  }
}
