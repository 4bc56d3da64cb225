/**
 * The relay of the Gun peer variant: the same read, write and upload paths as
 * NabLmdbStorage, answering over `socket.send` instead of named channels, with
 * a write filter that does not check for the empty soul and a read path that
 * does not flag missing souls.
 */
module GunPeer {
  import opened Wrappers
  import opened GunTypes
  import opened GraphConnector
  import opened Storage

  /** The store writes one graph-data event causes: the truthy entries, when there are any. */
  function GunPersistRequests(data: Option<GraphData>, msgId: string): seq<PutRequest> {
    if data.None? then []
    else
      var putGraph := TruthyEntries(data.value);
      if putGraph == [] then [] else [PutRequest(msgId, putGraph)]
  }

  /**
   * A graph-data event reaches the store, as one write, exactly when it has a
   * truthy node; the write carries exactly the truthy entries, under any soul.
   */
  lemma GunPersistDecision(data: Option<GraphData>, msgId: string)
    ensures GunPersistRequests(data, msgId) != [] <==> data.Some? && exists e :: e in data.value && e.1.Some?
    ensures |GunPersistRequests(data, msgId)| <= 1
    ensures GunPersistRequests(data, msgId) != [] ==>
      var r := GunPersistRequests(data, msgId)[0];
      && r.msgId == msgId
      && r.graph != []
      && forall e :: e in r.graph <==> e in data.value && e.1.Some?
  {
    if data.Some? {
      var g := TruthyEntries(data.value);
      TruthyEntriesMembers(data.value);
      if exists e :: e in data.value && e.1.Some? {
        var e :| e in data.value && e.1.Some?;
        assert e in g;
      } else if g != [] {
        assert g[0] in g;
      }
    }
  }

  /**
   * The two write paths issue the same store write for a message exactly
   * when the message has no truthy node under the empty soul.
   */
  lemma {:induction false} WriteVariantsAgree(msg: Msg)
    requires msg.put.Some?
    ensures PersistRequests(Some(msg)) == GunPersistRequests(msg.put, msg.id) <==>
      forall e :: e in msg.put.value && e.1.Some? ==> e.0 != ""
  {
    var data := msg.put.value;
    KeptEntriesVersusTruthy(data);
    KeptEntriesMembers(data);
    TruthyEntriesMembers(data);
    if !(forall e :: e in data && e.1.Some? ==> e.0 != "") {
      var e :| e in data && e.1.Some? && e.0 == "";
      assert e in TruthyEntries(data) && e !in KeptEntries(data);
      assert TruthyEntries(data) != [];
    }
  }

  /** The replies the read handler sends for one message: none without a soul, else the store's reply. */
  function GunGetReplies(nodes: map<Soul, Node>, msg: Option<Msg>): seq<Msg> {
    if msg.None? || RequestedSoul(msg.value) == "" then []
    else [GetReply(nodes, RequestedSoul(msg.value), msg.value.id)]
  }

  /**
   * Both read paths answer the same requests with the same reply;
   * NabLmdbStorage additionally publishes missing souls beforehand.
   */
  lemma ReadVariantsAgree(nodes: map<Soul, Node>, msg: Option<Msg>)
    ensures var pubs := GetResponses(nodes, msg);
      GunGetReplies(nodes, msg) == if pubs == [] then [] else [pubs[|pubs| - 1].msg]
    ensures |GunGetReplies(nodes, msg)| <= 1
    ensures GunGetReplies(nodes, msg) != [] ==>
      var reply := GunGetReplies(nodes, msg)[0];
      reply.id == msg.value.id && (reply.put.Some? <==> RequestedSoul(msg.value) in nodes)
  {
  }

  class Gun {
    /** The store connector. */
    const lmdb: NabLmdbGraphConnector
    /** The Thing route of the application schema. */
    const route: ThingRoute
    /** Every `lmdb.put` call, in order. */
    var puts: seq<PutRequest>
    /** Every message passed to `socket.send`, in order. */
    var sent: seq<Msg>
    /** Every graph sent with `socket.put`, in order. */
    var uploads: seq<GraphData>

    /** Every store write carries a non-empty graph of truthy nodes. */
    ghost predicate Valid()
      reads this
    {
      forall r :: r in puts ==> r.graph != [] && forall e :: e in r.graph ==> e.1.Some?
    }

    constructor (lmdb: NabLmdbGraphConnector, route: ThingRoute)
      ensures Valid()
      ensures this.lmdb == lmdb && this.route == route
      ensures puts == [] && sent == [] && uploads == []
    {
      this.lmdb := lmdb;
      this.route := route;
      puts, sent, uploads := [], [], [];
    }

    /** The handler of incoming messages: replies to reads that name a soul. */
    method RespondToGet(msg: Option<Msg>)
      modifies this`sent
      ensures sent == old(sent) + GunGetReplies(lmdb.nodes, msg)
    {
      if msg.None? {
        return;
      }
      var msgId := msg.value.id;
      var soul := RequestedSoul(msg.value);
      if soul == "" {
        return;
      }
      sent := sent + [GetReply(lmdb.nodes, soul, msgId)];
    }

    /** The handler of graph-data events: builds `putGraph` and hands it to the store. */
    method PersistIncoming(data: Option<GraphData>, msgId: string)
      requires Valid()
      modifies this`puts
      ensures Valid()
      ensures puts == old(puts) + GunPersistRequests(data, msgId)
    {
      if data.None? {
        return;
      }
      var souls := data.value;
      var putGraph: GraphData := [];
      for i := 0 to |souls|
        invariant putGraph == TruthyEntries(souls[..i])
        invariant puts == old(puts)
      {
        var (soul, node) := souls[i];
        TruthyEntriesStep(souls, i);
        if node.Some? {
          putGraph := putGraph + [(soul, node)];
        }
      }
      assert souls[..|souls|] == souls;
      assert putGraph == TruthyEntries(souls);
      TruthyEntriesMembers(souls);
      if |putGraph| > 0 {
        puts := puts + [PutRequest(msgId, putGraph)];
      }
    }

    /** The store's write acknowledgement: `m && socket.send([m])`. */
    method OnPutAck(m: Option<Msg>)
      modifies this`sent
      ensures sent == old(sent) + (if m.Some? then [m.value] else [])
    {
      if m.Some? {
        sent := sent + [m.value];
      }
    }

    /** `uploadThing(thingId)`: the guard chain, then one `socket.put` of the Thing's two nodes. */
    method UploadThing(thingId: string)
      modifies this`uploads
      ensures uploads == old(uploads) + UploadOf(lmdb.nodes, route.reverse(thingId))
    {
      var thingSoul := route.reverse(thingId);
      var thing := lmdb.ReadNode(thingSoul);
      if thing.None? {
        return;
      }
      var dataSoul := DataSoul(thing.value);
      if dataSoul.None? {
        return;
      }
      var thingData := lmdb.ReadNode(dataSoul.value);
      if thingData.None? {
        return;
      }
      uploads := uploads + [TwoSoulGraph(thingSoul, thing.value, dataSoul.value, thingData.value)];
    }

    /** `uploadThings()`: the awaited scan with `uploadThing` as its visitor. */
    method UploadThings()
      requires lmdb.Valid()
      modifies this`uploads
      ensures uploads == old(uploads) + Uploads(lmdb.nodes, route.reverse, ScannedIds(lmdb.keys, route.matchSoul))
    {
      var nodes, reverse := lmdb.nodes, route.reverse;
      var visit := (sent: seq<GraphData>, id: string) => sent + UploadOf(nodes, reverse(id));
      var sent, count := lmdb.EachThingIdAsync(route, visit, uploads);
      UploadsFold(nodes, reverse, visit, uploads, ScannedIds(lmdb.keys, route.matchSoul));
      uploads := sent;
    }
  }
}
