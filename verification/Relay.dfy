/** How a response body reaches the client: one chunk held back until the whole body has been charged. */
module RelayModel {
  import opened Prelude

  type Bytes = seq<int>

  /** What the proxy does once the headers are out. */
  datatype Action = Wrote(delivered: Bytes) | Settled(body: Bytes, endedEarly: bool)

  /** The upstream's chunks in order, and whether it then failed instead of ending. */
  datatype Upstream = Upstream(chunks: seq<Bytes>, fails: bool)

  /** The client's side: write number `n` fails after some bytes, or never. */
  type Client = nat -> Option<nat>

  function Joined(chunks: seq<Bytes>): Bytes {
    if |chunks| == 0 then [] else Joined(chunks[..|chunks| - 1]) + chunks[|chunks| - 1]
  }

  /** Everything the client has received. */
  function Received(actions: seq<Action>): Bytes {
    if |actions| == 0 then [] else
      Received(actions[..|actions| - 1])
        + (match actions[|actions| - 1] case Wrote(bytes) => bytes case Settled(_, _) => [])
  }

  /** The attempt is charged at action `k`. */
  ghost predicate ChargedAt(actions: seq<Action>, k: int) {
    && 0 <= k < |actions| && actions[k].Settled?
    && (forall i :: 0 <= i < |actions| && actions[i].Settled? ==> i == k)
  }

  /** The bytes of `chunk` that a write which fails after `n` of them delivers. */
  function Cut(chunk: Bytes, n: nat): Bytes {
    if n < |chunk| then chunk[..n] else chunk
  }

  /** A write that fails after some bytes delivers just those, or all when there are no more. */
  lemma {:induction false} CutTakes(chunk: Bytes, n: nat)
    ensures Cut(chunk, n) <= chunk && |Cut(chunk, n)| == if n < |chunk| then n else |chunk|
  {
  }

  lemma {:induction false} ReceivedAppend(actions: seq<Action>, action: Action)
    ensures Received(actions + [action]) ==
      Received(actions) + (match action case Wrote(bytes) => bytes case Settled(_, _) => [])
  {
    assert (actions + [action])[..|actions|] == actions;
  }

  /** The open connection to one client. */
  class Connection {
    const client: Client
    var open: bool
    var writes: nat
    var actions: seq<Action>

    constructor (client: Client)
      ensures open && writes == 0 && actions == [] && this.client == client
    {
      this.client := client;
      open, writes, actions := true, 0, [];
    }

    /** A closed connection receives nothing; a write that fails closes it. */
    method Send(chunk: Bytes)
      modifies this
      ensures !old(open) ==> !open && actions == old(actions) && writes == old(writes)
      ensures old(open) ==> writes == old(writes) + 1 && open == client(old(writes)).None?
      ensures old(open) ==>
        actions == old(actions) + [Wrote(if open then chunk else Cut(chunk, client(old(writes)).GetOr(0)))]
    {
      if !open {
        return;
      }
      var fault := client(writes);
      writes := writes + 1;
      if fault.Some? {
        actions := actions + [Wrote(Cut(chunk, fault.value))];
        open := false;
      } else {
        actions := actions + [Wrote(chunk)];
      }
    }

    method Charge(body: Bytes, endedEarly: bool)
      modifies this`actions
      ensures actions == old(actions) + [Settled(body, endedEarly)]
    {
      actions := actions + [Settled(body, endedEarly)];
    }
  }

  /** What has been written so far, seen from inside the loop. */
  ghost predicate Relayed(actions: seq<Action>, open: bool, sent: Bytes) {
    && (forall i :: 0 <= i < |actions| ==> actions[i].Wrote?)
    && (if open then Received(actions) == sent else Received(actions) <= sent)
  }

  lemma {:induction false} PrefixesReceived(actions: seq<Action>, k: nat)
    requires k <= |actions|
    ensures Received(actions[..k]) <= Received(actions)
    decreases |actions| - k
  {
    if k < |actions| {
      PrefixesReceived(actions, k + 1);
      assert actions[..k + 1] == actions[..k] + [actions[k]];
      ReceivedAppend(actions[..k], actions[k]);
    } else {
      assert actions[..k] == actions;
    }
  }

  /** All but the last chunk. */
  function Front(chunks: seq<Bytes>): seq<Bytes> {
    if |chunks| == 0 then [] else chunks[..|chunks| - 1]
  }

  function Last(chunks: seq<Bytes>): Option<Bytes> {
    if |chunks| == 0 then None else Some(chunks[|chunks| - 1])
  }

  lemma {:induction false} SendRelays(
    actions: seq<Action>, open: bool, sent: Bytes, chunk: Bytes, delivered: Bytes, stays: bool)
    requires Relayed(actions, open, sent) && open
    requires if stays then delivered == chunk else delivered <= chunk
    ensures Relayed(actions + [Wrote(delivered)], stays, sent + chunk)
  {
    ReceivedAppend(actions, Wrote(delivered));
  }

  lemma {:induction false} ClosedRelays(actions: seq<Action>, sent: Bytes, chunk: Bytes)
    requires Relayed(actions, false, sent)
    ensures Relayed(actions, false, sent + chunk)
  {
  }

  /** Sends the held chunk, if there is one. */
  method SendHeld(held: Option<Bytes>, connection: Connection, ghost sent: Bytes)
    requires Relayed(connection.actions, connection.open, sent)
    modifies connection
    ensures Relayed(connection.actions, connection.open, sent + held.GetOr([]))
  {
    hide Relayed;
    if held.Some? {
      ghost var actions, open := connection.actions, connection.open;
      connection.Send(held.value);
      if open {
        SendRelays(actions, open, sent, held.value, connection.actions[|actions|].delivered, connection.open);
      } else {
        ClosedRelays(actions, sent, held.value);
      }
    } else {
      assert sent + [] == sent;
    }
  }

  /** Sends each chunk when the next arrives, so the last one stays held. */
  method Pump(upstream: Upstream, connection: Connection) returns (parts: seq<Bytes>, held: Option<Bytes>)
    requires connection.open && connection.actions == []
    modifies connection
    ensures parts == upstream.chunks && held == Last(parts)
    ensures Relayed(connection.actions, connection.open, Joined(Front(parts)))
  {
    hide Relayed, Joined, Front, Last;
    held, parts := None, [];
    HoldsNothing();
    while |parts| < |upstream.chunks|
      invariant |parts| <= |upstream.chunks| && parts == upstream.chunks[..|parts|] && held == Last(parts)
      invariant Relayed(connection.actions, connection.open, Joined(Front(parts)))
    {
      var chunk := upstream.chunks[|parts|];
      SendHeld(held, connection, Joined(Front(parts)));
      HoldsNext(parts, chunk);
      parts := parts + [chunk];
      held := Some(chunk);
    }
  }

  lemma {:induction false} HoldsNothing()
    ensures Relayed([], true, Joined(Front([]))) && Last([]) == None
  {
  }

  /** All but the next held chunk is all but this one and this one. */
  lemma {:induction false} HoldsNext(parts: seq<Bytes>, chunk: Bytes)
    ensures Front(parts + [chunk]) == parts && Last(parts + [chunk]) == Some(chunk)
    ensures Joined(parts) == Joined(Front(parts)) + Last(parts).GetOr([])
  {
    assert (parts + [chunk])[..|parts|] == parts;
  }

  lemma {:induction false} ChargeSplits(writes: seq<Action>, settled: Action, rest: seq<Action>, sent: Bytes)
    requires settled.Settled?
    requires forall i :: 0 <= i < |writes| ==> writes[i].Wrote?
    requires forall i :: 0 <= i < |rest| ==> rest[i].Wrote?
    requires Received(writes) <= sent
    ensures ChargedAt(writes + [settled] + rest, |writes|)
    ensures forall i :: 0 <= i <= |writes| ==> Received((writes + [settled] + rest)[..i]) <= sent
  {
    forall i | 0 <= i <= |writes|
      ensures Received((writes + [settled] + rest)[..i]) <= sent
    {
      assert (writes + [settled] + rest)[..i] == writes[..i];
      PrefixesReceived(writes, i);
    }
  }

  /** The last write: the held chunk, whole when the client stays and cut short when it leaves. */
  ghost predicate LastWrite(rest: seq<Action>, held: Option<Bytes>, open: bool, stays: bool) {
    if open && held.Some? then
      |rest| == 1 && rest[0].Wrote? &&
        (if stays then rest[0].delivered == held.value else rest[0].delivered <= held.value)
    else rest == [] && stays == open
  }

  lemma {:induction false} RelayEnds(
    parts: seq<Bytes>, writes: seq<Action>, open: bool, settled: Action, rest: seq<Action>, stays: bool)
    requires forall i :: 0 <= i < |parts| ==> parts[i] != []
    requires Relayed(writes, open, Joined(Front(parts))) && settled.Settled? &&
      LastWrite(rest, Last(parts), open, stays)
    ensures var actions, body := writes + [settled] + rest, Joined(parts);
      && ChargedAt(actions, |writes|)
      && (forall i :: 0 <= i <= |writes| && body != [] ==> Received(actions[..i]) < body)
      && (if stays then Received(actions) == body else Received(actions) <= body)
  {
    var sent := Joined(Front(parts));
    ChargeSplits(writes, settled, rest, sent);
    BodyIsMore(parts);
    LastReceived(writes, settled, rest);
    hide ChargedAt, Received, Joined, Front, Last;
  }

  /** A body that is not empty is more than all but its last chunk. */
  lemma {:induction false} BodyIsMore(parts: seq<Bytes>)
    requires forall i :: 0 <= i < |parts| ==> parts[i] != []
    ensures Joined(parts) == Joined(Front(parts)) + Last(parts).GetOr([])
    ensures Joined(parts) != [] ==> Last(parts).Some? && Last(parts).value != []
  {
  }

  lemma {:induction false} LastReceived(writes: seq<Action>, settled: Action, rest: seq<Action>)
    requires settled.Settled? && |rest| <= 1 && (|rest| == 1 ==> rest[0].Wrote?)
    ensures Received(writes + [settled] + rest)
        == Received(writes) + if |rest| == 1 then rest[0].delivered else []
  {
    ReceivedAppend(writes, settled);
    if |rest| == 1 {
      ReceivedAppend(writes + [settled], rest[0]);
      assert rest == [rest[0]];
    } else {
      assert writes + [settled] + rest == writes + [settled];
    }
    hide Received;
  }

  /**
   * Relays a body. The attempt is charged once, at action `charge`, with the whole body that arrived. Until
   * then the client has received a proper prefix of a body that is not empty; in the end it has received the
   * body, or, when it left early, a prefix.
   */
  method Relay(upstream: Upstream, declared: Option<nat>, connection: Connection) returns (ghost charge: nat)
    requires forall i :: 0 <= i < |upstream.chunks| ==> upstream.chunks[i] != []
    requires connection.open && connection.actions == []
    modifies connection
    ensures ChargedAt(connection.actions, charge)
    ensures var body := Joined(upstream.chunks);
      && connection.actions[charge] == Settled(body, upstream.fails || (declared.Some? && |body| < declared.value))
      && (forall i :: 0 <= i <= charge && body != [] ==> Received(connection.actions[..i]) < body)
      && (if connection.open then Received(connection.actions) == body else Received(connection.actions) <= body)
  {
    hide Received, Joined, Relayed, Cut, ChargedAt;
    var parts, held := Pump(upstream, connection);
    var body := Joined(parts);
    var endedEarly := upstream.fails || (declared.Some? && |body| < declared.value);
    ghost var writes, open := connection.actions, connection.open;
    charge := |writes|;
    connection.Charge(body, endedEarly);
    ghost var charged := connection.actions;
    if held.Some? {
      connection.Send(held.value);
    }
    ghost var rest := connection.actions[|charged|..];
    assert connection.actions == writes + [Settled(body, endedEarly)] + rest;
    if held.Some? {
      forall n: nat ensures Cut(held.value, n) <= held.value {
        CutTakes(held.value, n);
      }
    }
    RelayEnds(parts, writes, open, Settled(body, endedEarly), rest, connection.open);
  }
}
