/** The global `connections` list of backend/main.py: sockets are appended when a
    WebSocket is accepted, removed when it disconnects, and pruned by `broadcast`
    when a send reports the peer gone. */
module Listeners {
  import opened Results

  /** An accepted WebSocket. Python compares sockets by object identity; the
      handle stands for that identity. */
  datatype Socket = Socket(handle: nat)

  /** What one `await ws.send_text(message)` does: deliver, raise
      `WebSocketDisconnect` (caught by `broadcast`), or raise anything else
      (not caught, so it escapes `broadcast`). */
  datatype SendOutcome = Sent | Disconnected | Raised

  /** The send loop's record: the sockets it tried in order, the ones it
      collected as dead, and whether an uncaught exception stopped it. */
  datatype Delivery = Delivery(attempted: seq<Socket>, dead: seq<Socket>, raised: bool)

  /** The effect of `broadcast`: either it returned with the list pruned, or an
      uncaught send exception escaped and the list was left as it was. */
  datatype Broadcast =
    | Pruned(conns: seq<Socket>, attempted: seq<Socket>)
    | Aborted(attempted: seq<Socket>)

  predicate Distinct(conns: seq<Socket>) {
    forall i, j :: 0 <= i < j < |conns| ==> conns[i] != conns[j]
  }

  /** The connect step of `websocket_endpoint`: the accepted socket goes on the end. */
  function Connect(conns: seq<Socket>, ws: Socket): (r: seq<Socket>)
    ensures |r| == |conns| + 1
    ensures r[..|conns|] == conns && r[|conns|] == ws
  {
    conns + [ws]
  }

  predicate IsFirstOf(conns: seq<Socket>, ws: Socket, k: int) {
    && 0 <= k < |conns|
    && conns[k] == ws
    && ws !in conns[..k]
  }

  /** Python's `list.remove`: drop the first occurrence of `ws`; None stands for
      the ValueError it raises when `ws` is not in the list. */
  function Remove(conns: seq<Socket>, ws: Socket): (r: Option<seq<Socket>>)
    ensures r.None? <==> ws !in conns
    ensures forall k :: IsFirstOf(conns, ws, k) ==> r == Some(conns[..k] + conns[k + 1..])
  {
    if conns == [] then None
    else if conns[0] == ws then
      assert conns[..0] + conns[1..] == conns[1..];
      Some(conns[1..])
    else match Remove(conns[1..], ws)
      case None => None
      case Some(rest) =>
        RemoveStep(conns, ws, rest);
        Some([conns[0]] + rest)
  }

  /** The first occurrence past a different head is the tail's first occurrence,
      shifted by one. */
  lemma RemoveStep(conns: seq<Socket>, ws: Socket, rest: seq<Socket>)
    requires conns != [] && conns[0] != ws
    requires forall k :: IsFirstOf(conns[1..], ws, k) ==> rest == conns[1..][..k] + conns[1..][k + 1..]
    ensures forall k :: IsFirstOf(conns, ws, k) ==> [conns[0]] + rest == conns[..k] + conns[k + 1..]
  {
    forall k | IsFirstOf(conns, ws, k)
      ensures [conns[0]] + rest == conns[..k] + conns[k + 1..]
    {
      assert conns[1..][..k - 1] == conns[1..k];
      assert IsFirstOf(conns[1..], ws, k - 1);
      assert conns[1..][k..] == conns[k + 1..];
      assert conns[..k] == [conns[0]] + conns[1..k];
    }
  }

  /** The list with every occurrence of `ws` left out, order kept. */
  function Without(conns: seq<Socket>, ws: Socket): (r: seq<Socket>)
    ensures forall c :: c in r <==> c in conns && c != ws
  {
    if conns == [] then []
    else if conns[0] == ws then Without(conns[1..], ws)
    else [conns[0]] + Without(conns[1..], ws)
  }

  /** The sockets whose send of `message` did not report a disconnect, order kept:
      the list `broadcast` should leave behind. */
  function Survivors(conns: seq<Socket>, send: (Socket, string) -> SendOutcome, message: string): (r: seq<Socket>)
    ensures forall c :: c in r <==> c in conns && send(c, message) != Disconnected
    ensures |r| <= |conns|
  {
    if conns == [] then []
    else if send(conns[0], message) == Disconnected then Survivors(conns[1..], send, message)
    else [conns[0]] + Survivors(conns[1..], send, message)
  }

  predicate AnyRaised(conns: seq<Socket>, send: (Socket, string) -> SendOutcome, message: string) {
    exists i :: 0 <= i < |conns| && send(conns[i], message) == Raised
  }

  predicate IsFirstRaised(conns: seq<Socket>, send: (Socket, string) -> SendOutcome, message: string, k: int) {
    && 0 <= k < |conns|
    && send(conns[k], message) == Raised
    && forall j :: 0 <= j < k ==> send(conns[j], message) != Raised
  }

  /** The first loop of `broadcast`: send to each socket in turn, collect the ones
      that raised `WebSocketDisconnect`, stop at any other exception. */
  function Deliver(pending: seq<Socket>, send: (Socket, string) -> SendOutcome, message: string): (d: Delivery)
    ensures d.raised <==> AnyRaised(pending, send, message)
    ensures !d.raised ==> d.attempted == pending
    ensures forall k :: IsFirstRaised(pending, send, message, k) ==> d.attempted == pending[..k + 1]
    ensures forall c :: c in d.dead ==> c in pending && send(c, message) == Disconnected
    ensures forall c :: c in d.attempted && send(c, message) == Disconnected ==> c in d.dead
  {
    if pending == [] then Delivery([], [], false)
    else
      var ws := pending[0];
      match send(ws, message)
      case Raised =>
        assert pending[..1] == [ws];
        Delivery([ws], [], true)
      case Sent =>
        var d := Deliver(pending[1..], send, message);
        DeliverStep(pending, send, message, d);
        Delivery([ws] + d.attempted, d.dead, d.raised)
      case Disconnected =>
        var d := Deliver(pending[1..], send, message);
        DeliverStep(pending, send, message, d);
        Delivery([ws] + d.attempted, [ws] + d.dead, d.raised)
  }

  /** How the facts about the tail of the list carry over to the whole list
      when its first send did not raise. */
  lemma DeliverStep(pending: seq<Socket>, send: (Socket, string) -> SendOutcome, message: string, d: Delivery)
    requires pending != [] && send(pending[0], message) != Raised
    requires d.raised <==> AnyRaised(pending[1..], send, message)
    requires forall k :: IsFirstRaised(pending[1..], send, message, k) ==> d.attempted == pending[1..][..k + 1]
    ensures d.raised <==> AnyRaised(pending, send, message)
    ensures forall k :: IsFirstRaised(pending, send, message, k) ==> [pending[0]] + d.attempted == pending[..k + 1]
  {
    if AnyRaised(pending, send, message) {
      var i :| 0 <= i < |pending| && send(pending[i], message) == Raised;
      assert pending[1..][i - 1] == pending[i];
    }
    forall k | IsFirstRaised(pending, send, message, k)
      ensures [pending[0]] + d.attempted == pending[..k + 1]
    {
      assert IsFirstRaised(pending[1..], send, message, k - 1) by {
        forall j | 0 <= j < k - 1
          ensures send(pending[1..][j], message) != Raised
        {
          assert pending[1..][j] == pending[j + 1];
        }
      }
      assert pending[..k + 1] == [pending[0]] + pending[1..][..k];
    }
  }

  /** The second loop of `broadcast`: `connections.remove(ws)` for each dead socket
      in turn; None stands for a ValueError from one of the removals. */
  function RemoveEach(conns: seq<Socket>, dead: seq<Socket>): (r: Option<seq<Socket>>)
    ensures r.Some? ==> multiset(r.value) + multiset(dead) == multiset(conns)
    ensures r.Some? ==> |r.value| + |dead| == |conns|
    decreases |dead|
  {
    if dead == [] then Some(conns)
    else match Remove(conns, dead[0])
      case None => None
      case Some(rest) =>
        RemoveTakesOne(conns, dead[0]);
        assert dead == [dead[0]] + dead[1..];
        RemoveEach(rest, dead[1..])
  }

  /** A successful `list.remove` takes out exactly one copy of the socket. */
  lemma {:induction false} RemoveTakesOne(conns: seq<Socket>, ws: Socket)
    requires Remove(conns, ws).Some?
    ensures multiset(Remove(conns, ws).value) + multiset{ws} == multiset(conns)
    decreases |conns|
  {
    assert conns == [conns[0]] + conns[1..];
    if conns[0] != ws {
      RemoveTakesOne(conns[1..], ws);
    }
  }

  function Prepend(ws: Socket, r: Option<seq<Socket>>): (r': Option<seq<Socket>>)
    ensures r.None? <==> r'.None?
    ensures r.Some? ==> r'.value == [ws] + r.value
  {
    match r
    case None => None
    case Some(rest) => Some([ws] + rest)
  }

  /** Removing sockets other than the head never touches the head. */
  lemma {:induction false} RemoveEachSkipsHead(ws: Socket, tail: seq<Socket>, dead: seq<Socket>)
    requires ws !in dead
    ensures RemoveEach([ws] + tail, dead) == Prepend(ws, RemoveEach(tail, dead))
    decreases |dead|
  {
    if dead != [] {
      assert ([ws] + tail)[1..] == tail;
      match Remove(tail, dead[0])
      case None =>
      case Some(rest) =>
        assert Remove([ws] + tail, dead[0]) == Some([ws] + rest);
        RemoveEachSkipsHead(ws, rest, dead[1..]);
    }
  }

  /** The two loops of `broadcast` together keep exactly the survivors, in their
      original order, and no removal raises ValueError. This holds even for a list
      with repeated sockets, because a socket's send outcome is the same at each
      of its positions. */
  lemma {:induction false} PruneKeepsSurvivors(conns: seq<Socket>, send: (Socket, string) -> SendOutcome, message: string)
    requires !AnyRaised(conns, send, message)
    ensures RemoveEach(conns, Deliver(conns, send, message).dead) == Some(Survivors(conns, send, message))
    decreases |conns|
  {
    if conns != [] {
      var ws := conns[0];
      var tail := conns[1..];
      assert conns == [ws] + tail;
      assert !AnyRaised(tail, send, message) by {
        forall i | 0 <= i < |tail|
          ensures send(tail[i], message) != Raised
        {
          assert tail[i] == conns[i + 1];
        }
      }
      assert send(ws, message) != Raised by {
        assert conns[0] == ws;
      }
      var d := Deliver(tail, send, message);
      PruneKeepsSurvivors(tail, send, message);
      if send(ws, message) == Disconnected {
        assert Remove(conns, ws) == Some(tail);
      } else {
        RemoveEachSkipsHead(ws, tail, d.dead);
      }
    }
  }

  /** `broadcast(message)`: try every registered socket, then drop the ones that
      reported a disconnect. An uncaught exception from a send leaves the list as
      it was and stops the remaining sends. */
  function DoBroadcast(conns: seq<Socket>, send: (Socket, string) -> SendOutcome, message: string): (r: Broadcast)
    ensures r.Aborted? <==> AnyRaised(conns, send, message)
    ensures r.Pruned? ==> r.attempted == conns && r.conns == Survivors(conns, send, message)
    ensures forall k :: IsFirstRaised(conns, send, message, k) ==> r.attempted == conns[..k + 1]
  {
    var d := Deliver(conns, send, message);
    if d.raised then Aborted(d.attempted)
    else
      PruneKeepsSurvivors(conns, send, message);
      Pruned(RemoveEach(conns, d.dead).value, d.attempted)
  }

  /** Filtering a list of distinct sockets leaves them distinct. */
  lemma {:induction false} SurvivorsKeepDistinct(conns: seq<Socket>, send: (Socket, string) -> SendOutcome, message: string)
    requires Distinct(conns)
    ensures Distinct(Survivors(conns, send, message))
    decreases |conns|
  {
    if conns != [] {
      var tail := conns[1..];
      assert Distinct(tail) by {
        forall i, j | 0 <= i < j < |tail|
          ensures tail[i] != tail[j]
        {
          assert tail[i] == conns[i + 1] && tail[j] == conns[j + 1];
        }
      }
      SurvivorsKeepDistinct(tail, send, message);
      assert conns[0] !in tail by {
        forall j | 0 <= j < |tail|
          ensures tail[j] != conns[0]
        {
          assert tail[j] == conns[j + 1];
        }
      }
    }
  }

  /** On a list of distinct sockets, the disconnect step removes exactly the
      closing socket and keeps the others in order. */
  lemma {:induction false} RemoveFromDistinct(conns: seq<Socket>, ws: Socket)
    requires Distinct(conns) && ws in conns
    ensures Remove(conns, ws) == Some(Without(conns, ws))
    ensures Distinct(Without(conns, ws))
    decreases |conns|
  {
    var tail := conns[1..];
    assert Distinct(tail) by {
      forall i, j | 0 <= i < j < |tail|
        ensures tail[i] != tail[j]
      {
        assert tail[i] == conns[i + 1] && tail[j] == conns[j + 1];
      }
    }
    assert conns[0] !in tail by {
      forall j | 0 <= j < |tail|
        ensures tail[j] != conns[0]
      {
        assert tail[j] == conns[j + 1];
      }
    }
    if conns[0] == ws {
      assert Without(tail, ws) == tail by {
        WithoutAbsent(tail, ws);
      }
    } else {
      RemoveFromDistinct(tail, ws);
    }
  }

  lemma {:induction false} WithoutAbsent(conns: seq<Socket>, ws: Socket)
    requires ws !in conns
    ensures Without(conns, ws) == conns
    decreases |conns|
  {
    if conns != [] {
      assert conns[0] != ws;
      assert ws !in conns[1..];
      WithoutAbsent(conns[1..], ws);
    }
  }

  /** A socket that connects and then disconnects leaves the list as it found it. */
  lemma DisconnectUndoesConnect(conns: seq<Socket>, ws: Socket)
    requires ws !in conns
    ensures Remove(Connect(conns, ws), ws) == Some(conns)
  {
    var after := Connect(conns, ws);
    assert IsFirstOf(after, ws, |conns|) by {
      assert after[..|conns|] == conns;
    }
    assert after[..|conns|] + after[|conns| + 1..] == conns;
  }

  /** Once `broadcast` has pruned a socket, the disconnect step of that socket's
      endpoint finds it gone and `connections.remove` raises ValueError. */
  lemma PrunedSocketCannotBeRemoved(conns: seq<Socket>, send: (Socket, string) -> SendOutcome, message: string, ws: Socket)
    requires ws in conns && send(ws, message) == Disconnected
    requires !AnyRaised(conns, send, message)
    ensures DoBroadcast(conns, send, message).Pruned?
    ensures Remove(DoBroadcast(conns, send, message).conns, ws) == None
  {
  }
}
