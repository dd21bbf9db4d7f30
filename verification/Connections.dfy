/** The peer table and its tie-break between two connections to the same peer. */
module Connections {
  import opened Types

  const PEER_SIZE_LIMIT := 3

  /** A connection is known by the node that dialled it, the node that accepted it, and a
      number that tells repeated dials apart. */
  datatype Connection = Connection(dialler: NodeId, acceptor: NodeId, serial: nat) {
    /** The other end, as seen from `local`. */
    function Peer(local: NodeId): NodeId {
      if dialler == local then acceptor else dialler
    }
  }

  type Table = map<NodeId, Connection>

  /** One `NewPeer` message: the table afterwards, and whether the connection was taken.  The
      limit is checked before anything else. */
  function Admit(local: NodeId, peers: Table, nodeId: NodeId, stream: Connection, connecting: bool): (Table, bool) {
    if |peers| >= PEER_SIZE_LIMIT then (peers, false)
    else if nodeId !in peers then (peers[nodeId := stream], true)
    else if (local < nodeId) == connecting then (peers[nodeId := stream], true)
    else (peers, false)
  }

  class PeerTable {
    const localNodeId: NodeId
    var peers: map<NodeId, Connection>

    constructor (localNodeId: NodeId)
      ensures this.localNodeId == localNodeId && peers == map[]
    {
      this.localNodeId := localNodeId;
      peers := map[];
    }

    method NewPeer(nodeId: NodeId, stream: Connection, connecting: bool) returns (taken: bool)
      modifies this
      ensures (peers, taken) == Admit(localNodeId, old(peers), nodeId, stream, connecting)
      ensures taken <==> |old(peers)| < PEER_SIZE_LIMIT &&
                         (nodeId !in old(peers) || (if localNodeId < nodeId then connecting else !connecting))
      ensures peers == if taken then old(peers)[nodeId := stream] else old(peers)
    {
      if |peers| >= PEER_SIZE_LIMIT {
        return false;
      }
      if nodeId !in peers {
        peers := peers[nodeId := stream];
        taken := true;
      } else if !((localNodeId < nodeId) != connecting) {
        // the smaller id should be the one that dials
        peers := peers[nodeId := stream];
        taken := true;
      } else {
        taken := false;
      }
    }
  }

  // ---------- any number of nodes, any interleaving ----------

  /** A connection is handled once at each end, in any order and mixed with all others. */
  datatype Handshake = Handshake(at: NodeId, stream: Connection)

  datatype History = Empty | After(earlier: History, last: Handshake)

  /** Every handshake is at one end of a connection between two different nodes. */
  predicate WellFormed(h: History) {
    h.After? ==>
      WellFormed(h.earlier) && h.last.stream.dialler != h.last.stream.acceptor &&
      h.last.at in {h.last.stream.dialler, h.last.stream.acceptor}
  }

  /** The table of one node after a history of handshakes everywhere. */
  function TableAt(node: NodeId, h: History): Table {
    match h
    case Empty => map[]
    case After(earlier, Handshake(at, stream)) =>
      var peers := TableAt(node, earlier);
      if at == node then Admit(node, peers, stream.Peer(node), stream, stream.dialler == node).0 else peers
  }

  /** The connections to `peer` handled at `node`, oldest first. */
  function Handled(node: NodeId, peer: NodeId, h: History): seq<Connection> {
    match h
    case Empty => []
    case After(earlier, Handshake(at, stream)) =>
      Handled(node, peer, earlier) + if at == node && stream.Peer(node) == peer then [stream] else []
  }

  /** How full the table of `node` was when the connections to `peer` were handled. */
  function RoomsFor(node: NodeId, peer: NodeId, h: History): seq<bool> {
    match h
    case Empty => []
    case After(earlier, Handshake(at, stream)) =>
      RoomsFor(node, peer, earlier) +
      if at == node && stream.Peer(node) == peer then [|TableAt(node, earlier)| < PEER_SIZE_LIMIT] else []
  }

  /** In every history no table ever exceeds its limit. */
  lemma {:induction false} TableWithinLimit(node: NodeId, h: History)
    ensures |TableAt(node, h)| <= PEER_SIZE_LIMIT
  {
    if h.After? {
      TableWithinLimit(node, h.earlier);
    }
  }

  predicate DialledBySmaller(c: Connection) {
    c.dialler < c.acceptor
  }

  /** What a node holds for a peer is decided by the connections to that peer alone: nothing
      before the first that found room; then the first, until one dialled by the smaller id
      finds room, and then the last such. */
  function Winner(streams: seq<Connection>, rooms: seq<bool>): Option<Connection>
    requires |streams| == |rooms|
  {
    if streams == [] then None
    else
      var n := |streams| - 1;
      var before := Winner(streams[..n], rooms[..n]);
      if rooms[n] && (before.None? || DialledBySmaller(streams[n])) then Some(streams[n]) else before
  }

  lemma WinnerSnoc(streams: seq<Connection>, rooms: seq<bool>, c: Connection, room: bool)
    requires |streams| == |rooms|
    ensures Winner(streams + [c], rooms + [room]) ==
            if room && (Winner(streams, rooms).None? || DialledBySmaller(c)) then Some(c) else Winner(streams, rooms)
  {
    assert (streams + [c])[..|streams|] == streams && (rooms + [room])[..|rooms|] == rooms;
  }

  function Entry(peers: Table, peer: NodeId): Option<Connection> {
    if peer in peers then Some(peers[peer]) else None
  }

  /** What one message does to the entry of any peer. */
  lemma AdmitEntry(local: NodeId, peers: Table, stream: Connection, peer: NodeId)
    requires stream.dialler != stream.acceptor && local in {stream.dialler, stream.acceptor}
    ensures var after := Admit(local, peers, stream.Peer(local), stream, stream.dialler == local).0;
            Entry(after, peer) ==
              if stream.Peer(local) == peer && |peers| < PEER_SIZE_LIMIT &&
                 (Entry(peers, peer).None? || DialledBySmaller(stream))
              then Some(stream) else Entry(peers, peer)
  {}

  lemma {:induction false} WinnerIsTable(node: NodeId, peer: NodeId, h: History)
    requires node != peer && WellFormed(h)
    ensures |Handled(node, peer, h)| == |RoomsFor(node, peer, h)|
    ensures Winner(Handled(node, peer, h), RoomsFor(node, peer, h)) == Entry(TableAt(node, h), peer)
  {
    if h.After? {
      hide Admit, Winner;
      WinnerIsTable(node, peer, h.earlier);
      var streams, rooms := Handled(node, peer, h.earlier), RoomsFor(node, peer, h.earlier);
      var stream, peers := h.last.stream, TableAt(node, h.earlier);
      assert streams + [] == streams && rooms + [] == rooms;
      if h.last.at == node {
        AdmitEntry(node, peers, stream, peer);
        if stream.Peer(node) == peer {
          WinnerSnoc(streams, rooms, stream, |peers| < PEER_SIZE_LIMIT);
        }
      }
    }
  }

  /** One end of a double dial: with room at the first handshake, the end finishes holding one
      of the two connections, and the smaller id's if and only if that one came first or found
      room too. */
  lemma OneEndIff(node: NodeId, peer: NodeId, h: History, small: Connection, large: Connection)
    requires node != peer && WellFormed(h) && DialledBySmaller(small) && !DialledBySmaller(large)
    requires Handled(node, peer, h) == [small, large] || Handled(node, peer, h) == [large, small]
    ensures |RoomsFor(node, peer, h)| == 2
    ensures RoomsFor(node, peer, h)[0] ==>
              peer in TableAt(node, h) && TableAt(node, h)[peer] in {small, large} &&
              (TableAt(node, h)[peer] == small <==> Handled(node, peer, h)[0] == small || RoomsFor(node, peer, h)[1])
  {
    WinnerIsTable(node, peer, h);
    var streams, rooms := Handled(node, peer, h), RoomsFor(node, peer, h);
    WinnerSnoc([], [], streams[0], rooms[0]);
    WinnerSnoc([streams[0]], [rooms[0]], streams[1], rooms[1]);
    assert [] + [streams[0]] == [streams[0]] && [] + [rooms[0]] == [rooms[0]];
    assert [streams[0]] + [streams[1]] == streams && [rooms[0]] + [rooms[1]] == rooms;
  }

  /** Two nodes dial each other once each, in any history of any number of nodes, with room in
      both tables at the first handshake.  Both ends finish holding the connection dialled by
      the smaller id if and only if, at either end, that connection was handled first or the
      table still had room for it.  In particular they do whenever neither table is full. */
  lemma DoubleDialAgreesIff(a: NodeId, b: NodeId, h: History, byA: Connection, byB: Connection)
    requires WellFormed(h) && a < b
    requires byA.dialler == a && byA.acceptor == b && byB.dialler == b && byB.acceptor == a
    requires Handled(a, b, h) == [byA, byB] || Handled(a, b, h) == [byB, byA]
    requires Handled(b, a, h) == [byA, byB] || Handled(b, a, h) == [byB, byA]
    requires RoomsFor(a, b, h) != [] && RoomsFor(a, b, h)[0] && RoomsFor(b, a, h) != [] && RoomsFor(b, a, h)[0]
    ensures |RoomsFor(a, b, h)| == 2 && |RoomsFor(b, a, h)| == 2
    ensures b in TableAt(a, h) && a in TableAt(b, h)
    ensures TableAt(a, h)[b] == byA && TableAt(b, h)[a] == byA <==>
              (Handled(a, b, h)[0] == byA || RoomsFor(a, b, h)[1]) &&
              (Handled(b, a, h)[0] == byA || RoomsFor(b, a, h)[1])
  {
    OneEndIff(a, b, h, byA, byB);
    OneEndIff(b, a, h, byA, byB);
  }

  /** A table that fills up between the two handshakes makes the ends disagree: the limit is
      checked before the tie-break. */
  lemma FullTableDisagrees() returns (h: History)
    ensures WellFormed(h)
    ensures var byA, byB := Connection(1, 2, 0), Connection(2, 1, 0);
            Handled(1, 2, h) == [byB, byA] && Handled(2, 1, h) == [byA, byB] &&
            RoomsFor(1, 2, h) == [true, false] &&
            2 in TableAt(1, h) && TableAt(1, h)[2] == byB &&
            1 in TableAt(2, h) && TableAt(2, h)[1] == byA
  {
    var byA, byB := Connection(1, 2, 0), Connection(2, 1, 0);
    var h1 := After(Empty, Handshake(1, Connection(1, 8, 0)));
    var h2 := After(h1, Handshake(1, Connection(1, 9, 0)));
    var h3 := After(h2, Handshake(2, byA));
    var h4 := After(h3, Handshake(1, byB));
    var h5 := After(h4, Handshake(1, byA));
    h := After(h5, Handshake(2, byB));
    assert TableAt(1, h3) == map[8 := Connection(1, 8, 0), 9 := Connection(1, 9, 0)];
    assert TableAt(1, h4) == map[8 := Connection(1, 8, 0), 9 := Connection(1, 9, 0), 2 := byB];
    assert TableAt(2, h5) == map[1 := byA];
    assert Handled(1, 2, h3) == [] && RoomsFor(1, 2, h3) == [];
  }
}
