/**
 * The SFU's room registry as it runs (apps/sfu/src/room-state.ts): peers, rooms and the registry are
 * records updated in place. Each operation is proved against its function in RoomModel. `Valid` keeps
 * the heap in order: a peer is filed under its own key in the room it was created in, so rooms never
 * share a peer, and work inside one room leaves the values of all others as they were.
 */
module RoomState {
  import opened Wrappers
  import opened RoomModel

  class Peer {
    const peerId: string
    const peerKey: PeerKey
    const who: Identity
    ghost const home: Room     // the room it was created in
    var lastSeenAt: int
    var transports: map<string, Handle>
    var producers: map<string, Handle>
    var consumers: map<string, Handle>

    constructor (peerId: string, peerKey: PeerKey, identity: Identity, ghost home: Room, now: int)
      ensures this.peerKey == peerKey && this.home == home && this.peerId == peerId && lastSeenAt == now
      ensures transports == producers == consumers == map[]
      ensures View() == NewPeer(identity, peerId, now)
    {
      this.peerId, this.peerKey, this.home, lastSeenAt := peerId, peerKey, home, now;
      who := Cleaned(identity);
      transports, producers, consumers := map[], map[], map[];
    }

    ghost function View(): PeerValue
      reads this
    {
      PeerValue(peerId, who, lastSeenAt, transports, producers, consumers)
    }
  }

  /** Deletes each of the ids from an index, one by one. */
  method DropAll<V>(index: map<string, V>, ids: set<string>) returns (left: map<string, V>)
    ensures left == index - ids
  {
    left := index;
    var todo := ids;
    while todo != {}
      invariant todo <= ids && left == index - (ids - todo)
    {
      var id :| id in todo;
      todo := todo - {id};
      left := left - {id};
    }
  }

  lemma HeldByOne(peers: map<PeerKey, PeerValue>, key: PeerKey, kind: Kind)
    requires key in peers
    ensures HeldByAny(peers, {key}, kind) == Held(peers[key], kind).Keys
  {
  }

  lemma ClosedOne(r: RoomValue, key: PeerKey, now: int)
    requires key in r.peers
    ensures var p := r.peers[key];
            Closed(r, {key}, now)
            == RoomValue(r.peers - {key}, r.transportOwners - p.transports.Keys, r.producerOwners - p.producers.Keys,
                         r.consumerOwners - p.consumers.Keys, r.producerSources - p.producers.Keys, now)
  {
    HeldByOne(r.peers, key, Transport);
    HeldByOne(r.peers, key, Producer);
    HeldByOne(r.peers, key, Consumer);
    assert key in {key} * r.peers.Keys;
  }

  ghost predicate Counts(n: nat, keys: set<PeerKey>) {
    n == |keys|
  }

  lemma CountsNone()
    ensures Counts(0, {})
  {
  }

  lemma ExpiredAreThere(r: RoomValue, peerTtlMs: int, now: int)
    ensures Expired(r, peerTtlMs, now) <= r.peers.Keys
  {
  }

  class Room {
    const roomId: RoomId
    const createdAt: int
    var peers: map<PeerKey, Peer>
    var transportOwners: Owners
    var producerOwners: Owners
    var consumerOwners: Owners
    var producerSources: map<string, Source>
    var lastActiveAt: int

    constructor (roomId: RoomId, now: int)
      ensures this.roomId == roomId && Valid() && peers == map[] && View() == NewRoom(now)
    {
      this.roomId, createdAt, lastActiveAt := roomId, now, now;
      peers, transportOwners, producerOwners, consumerOwners := map[], map[], map[], map[];
      producerSources := map[];
    }

    /** A peer is filed under its own key, in the room it was created in. */
    ghost predicate Valid()
      reads this`peers
    {
      forall key :: key in peers ==> peers[key].peerKey == key && peers[key].home == this
    }

    ghost function PeerValues(): map<PeerKey, PeerValue>
      reads this`peers, peers.Values
    {
      map key | key in peers :: peers[key].View()
    }

    ghost function View(): RoomValue
      reads this, peers.Values
    {
      RoomValue(PeerValues(), transportOwners, producerOwners, consumerOwners, producerSources, lastActiveAt)
    }

    lemma SameKeys()
      ensures View().peers.Keys == peers.Keys
    {
    }

    ghost predicate Has(peer: Peer)
      reads this`peers
    {
      peer.peerKey in peers && peers[peer.peerKey] == peer
    }

    /** Writing to one peer of the room changes that peer's value and no other. */
    twostate lemma OnePeerChanged(peer: Peer)
      requires old(Valid()) && peers == old(peers) && Has(peer)
      requires forall key :: key in peers && key != peer.peerKey ==> unchanged(peers[key])
      ensures PeerValues() == old(PeerValues())[peer.peerKey := peer.View()]
    {
    }

    method GetOrCreatePeer(identity: Identity, peerId: string, now: int) returns (peer: Peer)
      requires Valid()
      modifies this, peers.Values
      ensures Valid() && Has(peer) && fresh(peers.Values - old(peers.Values))
      ensures View() == GotPeer(old(View()), identity, peerId, now)
      ensures peer.peerKey == KeyOf(identity) && peer.lastSeenAt == lastActiveAt == now
      ensures KeyOf(identity) in old(peers) ==> peer == old(peers)[KeyOf(identity)] && peers == old(peers)
      ensures KeyOf(identity) !in old(peers) ==>
                && fresh(peer) && peers == old(peers)[KeyOf(identity) := peer] && peer.peerId == peerId
                && peer.transports == peer.producers == peer.consumers == map[]
    {
      hide KeyOf;
      hide NewPeer;
      lastActiveAt := now;
      var key := KeyOf(identity);
      if key in peers {
        peer := peers[key];
        peer.lastSeenAt := now;
        OnePeerChanged(peer);
      } else {
        peer := CreatePeer(key, identity, peerId, now);
      }
    }

    method CreatePeer(key: PeerKey, identity: Identity, peerId: string, now: int) returns (peer: Peer)
      requires Valid() && key !in peers
      modifies this`peers
      ensures Valid() && fresh(peer) && peers == old(peers)[key := peer] && peer.peerKey == key
      ensures peer.peerId == peerId && peer.lastSeenAt == now
      ensures peer.transports == peer.producers == peer.consumers == map[]
      ensures PeerValues() == old(PeerValues())[key := NewPeer(identity, peerId, now)]
    {
      peer := new Peer(peerId, key, identity, this, now);
      peers := peers[key := peer];
    }

    method AttachTransport(peer: Peer, id: string, transport: Handle, now: int)
      requires Valid()
      modifies this`transportOwners, this`lastActiveAt, peer`transports, peer`lastSeenAt
      ensures peer.transports == old(peer.transports)[id := transport] && peer.lastSeenAt == lastActiveAt == now
      ensures transportOwners == old(transportOwners)[id := peer.peerKey]
      ensures Has(peer) ==> View() == Attached(old(View()), peer.peerKey, Transport, id, transport, now)
    {
      peer.transports := peer.transports[id := transport];
      transportOwners := transportOwners[id := peer.peerKey];
      peer.lastSeenAt := now;
      lastActiveAt := now;
      if Has(peer) {
        OnePeerChanged(peer);
      }
    }

    method AttachProducer(peer: Peer, id: string, producer: Handle, source: Option<Source>, now: int)
      requires Valid()
      modifies this`producerOwners, this`producerSources, this`lastActiveAt, peer`producers, peer`lastSeenAt
      ensures peer.producers == old(peer.producers)[id := producer] && peer.lastSeenAt == lastActiveAt == now
      ensures producerOwners == old(producerOwners)[id := peer.peerKey]
      ensures producerSources == if source.Some? then old(producerSources)[id := source.value]
                                 else old(producerSources) - {id}
      ensures Has(peer) ==>
                View() == WithSource(Attached(old(View()), peer.peerKey, Producer, id, producer, now), id, source)
    {
      peer.producers := peer.producers[id := producer];
      producerOwners := producerOwners[id := peer.peerKey];
      if source.Some? {
        producerSources := producerSources[id := source.value];
      } else {
        producerSources := producerSources - {id};
      }
      peer.lastSeenAt := now;
      lastActiveAt := now;
      if Has(peer) {
        OnePeerChanged(peer);
      }
    }

    method AttachConsumer(peer: Peer, id: string, consumer: Handle, now: int)
      requires Valid()
      modifies this`consumerOwners, this`lastActiveAt, peer`consumers, peer`lastSeenAt
      ensures peer.consumers == old(peer.consumers)[id := consumer] && peer.lastSeenAt == lastActiveAt == now
      ensures consumerOwners == old(consumerOwners)[id := peer.peerKey]
      ensures Has(peer) ==> View() == Attached(old(View()), peer.peerKey, Consumer, id, consumer, now)
    {
      peer.consumers := peer.consumers[id := consumer];
      consumerOwners := consumerOwners[id := peer.peerKey];
      peer.lastSeenAt := now;
      lastActiveAt := now;
      if Has(peer) {
        OnePeerChanged(peer);
      }
    }

    method FindPeerByTransport(id: string) returns (peer: Peer?, transport: Handle)
      requires Valid()
      modifies this`transportOwners
      ensures View() == Sought(old(View()), Transport, id)
      ensures transportOwners == if peer == null then old(transportOwners) - {id} else old(transportOwners)
      ensures peer != null <==> Found(old(View()), Transport, id).Some?
      ensures peer != null ==>
                Has(peer) && Found(old(View()), Transport, id) == Some(peer.peerKey)
                && id in peer.transports && transport == peer.transports[id]
    {
      peer, transport := null, 0;
      if id in transportOwners {
        var key := transportOwners[id];
        if key in peers && id in peers[key].transports {
          peer := peers[key];
          transport := peer.transports[id];
        } else {
          transportOwners := transportOwners - {id};
        }
      }
    }

    method FindPeerByConsumer(id: string) returns (peer: Peer?, consumer: Handle)
      requires Valid()
      modifies this`consumerOwners
      ensures View() == Sought(old(View()), Consumer, id)
      ensures consumerOwners == if peer == null then old(consumerOwners) - {id} else old(consumerOwners)
      ensures peer != null <==> Found(old(View()), Consumer, id).Some?
      ensures peer != null ==>
                Has(peer) && Found(old(View()), Consumer, id) == Some(peer.peerKey)
                && id in peer.consumers && consumer == peer.consumers[id]
    {
      peer, consumer := null, 0;
      if id in consumerOwners {
        var key := consumerOwners[id];
        if key in peers && id in peers[key].consumers {
          peer := peers[key];
          consumer := peer.consumers[id];
        } else {
          consumerOwners := consumerOwners - {id};
        }
      }
    }

    method RemoveTransport(peer: Peer, id: string)
      requires Valid()
      modifies this`transportOwners, peer`transports
      ensures peer.transports == old(peer.transports) - {id} && transportOwners == old(transportOwners) - {id}
      ensures Has(peer) ==> View() == Removed(old(View()), peer.peerKey, Transport, id)
    {
      peer.transports := peer.transports - {id};
      transportOwners := transportOwners - {id};
      if Has(peer) {
        OnePeerChanged(peer);
      }
    }

    method RemoveProducer(peer: Peer, id: string)
      requires Valid()
      modifies this`producerOwners, this`producerSources, peer`producers
      ensures peer.producers == old(peer.producers) - {id} && producerOwners == old(producerOwners) - {id}
      ensures producerSources == old(producerSources) - {id}
      ensures Has(peer) ==> View() == Removed(old(View()), peer.peerKey, Producer, id)
    {
      peer.producers := peer.producers - {id};
      producerOwners := producerOwners - {id};
      producerSources := producerSources - {id};
      if Has(peer) {
        OnePeerChanged(peer);
      }
    }

    method RemoveConsumer(peer: Peer, id: string)
      requires Valid()
      modifies this`consumerOwners, peer`consumers
      ensures peer.consumers == old(peer.consumers) - {id} && consumerOwners == old(consumerOwners) - {id}
      ensures Has(peer) ==> View() == Removed(old(View()), peer.peerKey, Consumer, id)
    {
      peer.consumers := peer.consumers - {id};
      consumerOwners := consumerOwners - {id};
      if Has(peer) {
        OnePeerChanged(peer);
      }
    }

    method ClosePeer(key: PeerKey, now: int) returns (closed: bool)
      requires Valid()
      modifies this, if key in peers then {peers[key]} else {}
      ensures Valid() && closed == (key in old(peers)) && peers == old(peers) - {key}
      ensures lastActiveAt == if closed then now else old(lastActiveAt)
      ensures View() == if closed then Closed(old(View()), {key}, now) else old(View())
    {
      if key !in peers {
        return false;
      }
      CloseKnownPeer(key, now);
      closed := true;
    }

    method CloseKnownPeer(key: PeerKey, now: int)
      requires Valid() && key in peers
      modifies this, peers[key]
      ensures Valid() && peers == old(peers) - {key} && lastActiveAt == now
      ensures View() == Closed(old(View()), {key}, now)
    {
      hide Closed;
      ghost var before, held := View(), peers[key].View();
      ForgetHeld(peers[key]);
      DropPeer(key, now);
      ClosedOne(before, key, now);
      assert before.peers[key] == held;
    }

    /** The peer goes, with all it held. */
    method DropPeer(key: PeerKey, now: int)
      requires Valid() && key in peers
      modifies this`peers, this`lastActiveAt, peers[key]
      ensures Valid() && peers == old(peers) - {key} && lastActiveAt == now
      ensures PeerValues() == old(PeerValues()) - {key}
    {
      var peer := peers[key];
      peer.transports, peer.producers, peer.consumers := map[], map[], map[];
      peers := peers - {key};
      lastActiveAt := now;
    }

    /** Every index entry of what the peer holds is dropped. */
    method ForgetHeld(peer: Peer)
      modifies this`transportOwners, this`producerOwners, this`consumerOwners, this`producerSources
      ensures transportOwners == old(transportOwners) - peer.transports.Keys
      ensures producerOwners == old(producerOwners) - peer.producers.Keys
      ensures consumerOwners == old(consumerOwners) - peer.consumers.Keys
      ensures producerSources == old(producerSources) - peer.producers.Keys
    {
      transportOwners := DropAll(transportOwners, peer.transports.Keys);
      producerOwners := DropAll(producerOwners, peer.producers.Keys);
      producerSources := DropAll(producerSources, peer.producers.Keys);
      consumerOwners := DropAll(consumerOwners, peer.consumers.Keys);
    }

    /** The sweep of one room: every peer not seen for too long is closed. */
    method CloseExpired(peerTtlMs: int, now: int) returns (removed: nat)
      requires Valid()
      modifies this, peers.Values
      ensures Valid() && peers.Keys <= old(peers).Keys && forall key :: key in peers ==> peers[key] == old(peers)[key]
      ensures View() == SweptRoom(old(View()), peerTtlMs, now)
      ensures Counts(removed, Expired(old(View()), peerTtlMs, now))
    {
      hide Closed;
      hide Expired;
      hide PeerValues;
      hide View;
      hide Counts;
      CountsNone();
      ghost var before := View();
      ghost var expired := Expired(before, peerTtlMs, now);
      var todo := peers.Keys;
      removed := 0;
      ClosedNone(before, now);
      ExpiredAreThere(before, peerTtlMs, now);
      SameKeys();
      assert expired - todo == {};
      while todo != {}
        invariant Valid() && todo <= peers.Keys <= old(peers).Keys
        invariant forall key :: key in peers ==> peers[key] == old(peers)[key]
        invariant View() == Closed(before, expired - todo, now) && Counts(removed, expired - todo)
      {
        var key :| key in todo;
        removed := CloseIfExpired(key, peerTtlMs, now, before, removed, expired, todo);
        todo := todo - {key};
      }
      assert expired - todo == expired;
    }

    /** Closes one of the peers still to look at, if it is due; those due and looked at are closed. */
    method CloseIfExpired(key: PeerKey, peerTtlMs: int, now: int, ghost before: RoomValue, removed: nat,
                          ghost expired: set<PeerKey>, ghost todo: set<PeerKey>)
      returns (count: nat)
      requires Valid() && key in peers && key in todo && expired == Expired(before, peerTtlMs, now)
      requires View() == Closed(before, expired - todo, now) && Counts(removed, expired - todo)
      modifies this, peers[key]
      ensures Valid() && peers == if key in expired then old(peers) - {key} else old(peers)
      ensures View() == Closed(before, expired - (todo - {key}), now) && Counts(count, expired - (todo - {key}))
    {
      hide HeldByAny;
      ghost var done := expired - todo;
      assert View().peers == before.peers - done && View().peers[key] == peers[key].View();
      count := removed;
      if now - peers[key].lastSeenAt > peerTtlMs {
        assert expired - (todo - {key}) == done + {key};
        ClosedOneMore(before, done, key, now);
        var closed := ClosePeer(key, now);
        count := removed + 1;
      } else {
        assert expired - (todo - {key}) == done;
      }
    }

    /** The sweep of one room; `goes` says that the registry is to drop it. */
    method Sweep(o: Options, now: int) returns (closed: nat, goes: bool)
      requires Valid()
      modifies this, peers.Values
      ensures Valid() && peers.Values <= old(peers.Values)
      ensures View() == SweptRoom(old(View()), o.peerTtlMs, now)
      ensures Counts(closed, Expired(old(View()), o.peerTtlMs, now))
      ensures goes == Goes(old(View()), o, now)
    {
      closed := CloseExpired(o.peerTtlMs, now);
      assert PeerValues().Keys == peers.Keys;
      goes := peers == map[] && now - lastActiveAt > o.emptyRoomTtlMs;
    }
  }

  class RoomRegistry {
    var rooms: map<RoomId, Room>

    constructor ()
      ensures Valid({}) && View({}) == map[]
    {
      rooms := map[];
    }

    /** A room is filed under its own id; every room and every peer of it is in `footprint`. */
    ghost predicate Valid(footprint: set<object>)
      reads this, footprint
    {
      && this !in footprint
      && forall id :: id in rooms ==>
           && rooms[id] in footprint && rooms[id].peers.Values <= footprint
           && rooms[id].roomId == id && rooms[id].Valid()
    }

    ghost function View(footprint: set<object>): Rooms
      requires Valid(footprint)
      reads this, footprint
    {
      map id | id in rooms :: rooms[id].View()
    }

    /**
     * Work inside one room, which leaves the other rooms and their peers alone, keeps the registry in
     * order, over a footprint grown by the peers the room took in.
     */
    twostate lemma RoomWorkKeepsValid(new id: RoomId, footprint: set<object>)
      requires old(Valid(footprint)) && rooms == old(rooms) && id in rooms && rooms[id].Valid()
      requires forall j :: j in rooms && j != id ==> unchanged(rooms[j])
      requires forall j, key :: j in rooms && j != id && key in rooms[j].peers ==> unchanged(rooms[j].peers[key])
      ensures Valid(footprint + rooms[id].peers.Values)
      ensures View(footprint + rooms[id].peers.Values) == old(View(footprint))[id := rooms[id].View()]
    {
    }

    /** A room as it is created, once its router is there: it takes the place of a room of the same id. */
    method AddRoom(roomId: RoomId, now: int, ghost footprint: set<object>) returns (room: Room)
      requires Valid(footprint)
      modifies this`rooms
      ensures fresh(room) && rooms == old(rooms)[roomId := room] && Valid(footprint + {room})
      ensures View(footprint + {room}) == old(View(footprint))[roomId := NewRoom(now)]
    {
      hide Room.View;
      hide Room.Valid;
      hide NewRoom;
      room := new Room(roomId, now);
      FileRoom(room, footprint);
    }

    /** Puts a room that has no peers, and is in no registry yet, under its id. */
    method FileRoom(room: Room, ghost footprint: set<object>)
      requires Valid(footprint) && room !in footprint && room.Valid() && room.peers == map[]
      modifies this`rooms
      ensures rooms == old(rooms)[room.roomId := room] && Valid(footprint + {room})
      ensures View(footprint + {room}) == old(View(footprint))[room.roomId := room.View()]
    {
      hide Room.View;
      rooms := rooms[room.roomId := room];
    }

    /** A peer joins a room of the registry. */
    method Join(id: RoomId, identity: Identity, peerId: string, now: int, ghost footprint: set<object>)
      returns (peer: Peer)
      requires Valid(footprint) && id in rooms
      modifies footprint
      ensures rooms == old(rooms) && rooms[id].Has(peer)
      ensures Valid(footprint + rooms[id].peers.Values)
      ensures View(footprint + rooms[id].peers.Values)
              == old(View(footprint))[id := GotPeer(old(View(footprint))[id], identity, peerId, now)]
    {
      hide Room.View;
      hide Room.PeerValues;
      hide GotPeer;
      peer := rooms[id].GetOrCreatePeer(identity, peerId, now);
      RoomWorkKeepsValid(id, footprint);
    }

    /** The sweep of one room, seen from the registry. */
    method SweepPeers(id: RoomId, o: Options, now: int, ghost footprint: set<object>) returns (closed: nat, goes: bool)
      requires Valid(footprint) && id in rooms
      modifies footprint
      ensures Valid(footprint)
      ensures View(footprint) == old(View(footprint))[id := SweptRoom(old(View(footprint))[id], o.peerTtlMs, now)]
      ensures Counts(closed, Expired(old(View(footprint))[id], o.peerTtlMs, now))
      ensures goes == Goes(old(View(footprint))[id], o, now)
    {
      hide Room.View;
      hide Room.PeerValues;
      hide SweptRoom;
      hide Goes;
      hide Expired;
      hide Counts;
      closed, goes := rooms[id].Sweep(o, now);
      RoomWorkKeepsValid(id, footprint);
      assert footprint + rooms[id].peers.Values == footprint;
    }

    /** One turn of the sweep. */
    method SweepRoom(id: RoomId, o: Options, now: int, ghost footprint: set<object>)
      returns (closed: nat, gone: bool)
      requires Valid(footprint) && id in rooms
      modifies this`rooms, footprint
      ensures Valid(footprint) && View(footprint) == SweptOne(old(View(footprint)), id, o, now)
      ensures Counts(closed, Expired(old(View(footprint))[id], o.peerTtlMs, now))
      ensures gone == Goes(old(View(footprint))[id], o, now)
    {
      hide Room.View;
      hide SweptRoom;
      hide Goes;
      hide Expired;
      hide Counts;
      hide Room.Valid;
      hide SweptOne;
      ghost var before := View(footprint);
      closed, gone := SweepPeers(id, o, now, footprint);
      if gone {
        rooms := rooms - {id};
      }
      IsSweptOne(before, View(footprint), id, o, now);
    }

    method CleanupStaleRooms(o: Options, now: int, ghost footprint: set<object>)
      returns (removedPeers: nat, removedRooms: nat)
      requires Valid(footprint)
      modifies this`rooms, footprint
      ensures Valid(footprint) && View(footprint) == Swept(old(View(footprint)), old(View(footprint)).Keys, o, now)
      ensures removedPeers == |ExpiredPeers(old(View(footprint)), old(View(footprint)).Keys, o, now)|
      ensures removedRooms == |GoneRooms(old(View(footprint)), old(View(footprint)).Keys, o, now)|
    {
      hide Room.View;
      hide SweptRoom;
      hide Goes;
      hide Expired;
      hide Swept;
      hide SweptOne;
      hide ExpiredPeers;
      hide GoneRooms;
      ghost var before, done := View(footprint), {};
      removedPeers, removedRooms := 0, 0;
      var todo := rooms.Keys;
      NothingSwept(before, o, now);
      while todo != {}
        invariant Valid(footprint) && View(footprint) == Swept(before, done, o, now)
        invariant todo <= before.Keys && done == before.Keys - todo
        invariant removedPeers == |ExpiredPeers(before, done, o, now)|
        invariant removedRooms == |GoneRooms(before, done, o, now)|
      {
        var id :| id in todo;
        SweptOneMore(before, done, id, o, now);
        var closed, gone := SweepRoom(id, o, now, footprint);
        todo, done := todo - {id}, done + {id};
        removedPeers := removedPeers + closed;
        if gone {
          removedRooms := removedRooms + 1;
        }
      }
      assert done == before.Keys;
    }
  }
}
