/**
 * The relay of NabLmdbStorage: it answers validated read requests from the
 * store, hands validated writes to the store, fans committed diffs out to
 * per-soul channels and re-uploads stored Things. The transport is an
 * append-only log of publications, the store connector a snapshot.
 */
module Storage {
  import opened Wrappers
  import opened GunTypes
  import opened GraphConnector

  // ---------------------------------------------------------------------------
  // Diff fan-out (publishDiff)
  // ---------------------------------------------------------------------------

  /** The split message `{'#': msgId/soul, put: {soul: delta}}` on `gun/nodes/{soul}`. */
  function NodePublication(msgId: string, entry: (Soul, Option<Node>)): Publication {
    Publication(NodesChannel(entry.0), Msg(msgId + "/" + entry.0, None, Some([entry])))
  }

  /** One split message per entry, in entry order. */
  function NodePublications(msgId: string, entries: GraphData): (pubs: seq<Publication>)
    ensures |pubs| == |entries|
    decreases |entries|
  {
    if entries == [] then []
    else NodePublications(msgId, entries[..|entries| - 1]) + [NodePublication(msgId, entries[|entries| - 1])]
  }

  /** The j-th split message is the one for the j-th entry. */
  lemma {:induction false} NodePublicationsAt(msgId: string, entries: GraphData)
    ensures forall j :: 0 <= j < |entries| ==> NodePublications(msgId, entries)[j] == NodePublication(msgId, entries[j])
    decreases |entries|
  {
    if entries != [] {
      NodePublicationsAt(msgId, entries[..|entries| - 1]);
    }
  }

  /**
   * The publications `publishDiff(msg)` issues, in order: nothing without a
   * diff; otherwise the whole message on `gun/put/diff`, then either the
   * original message on the channel of the single soul (when its delta is
   * truthy), or one split message per truthy delta.
   */
  function DiffPublications(msg: Msg): seq<Publication> {
    match msg.put
    case None => []
    case Some(diff) =>
      [Publication(PutDiffChannel, msg)] +
      if |diff| == 1 then
        (if diff[0].1.Some? then [Publication(NodesChannel(diff[0].0), msg)] else [])
      else NodePublications(msg.id, TruthyEntries(diff))
  }

  lemma NodePublicationsSnoc(msgId: string, entries: GraphData, e: (Soul, Option<Node>))
    ensures NodePublications(msgId, entries + [e]) == NodePublications(msgId, entries) + [NodePublication(msgId, e)]
  {
    assert (entries + [e])[..|entries|] == entries;
  }

  /**
   * What the fan-out publishes: nothing without a diff; otherwise the whole
   * message first, even when every delta is falsy, then one publication per
   * truthy delta. With a single soul the original message (same id) goes to
   * that soul's channel; otherwise each truthy delta, in key order, gets its
   * own message carrying only that soul.
   */
  lemma {:induction false} DiffFanOut(msg: Msg)
    ensures msg.put.None? ==> DiffPublications(msg) == []
    ensures msg.put.Some? ==>
      var pubs, diff := DiffPublications(msg), msg.put.value;
      && |pubs| == 1 + |TruthyEntries(diff)|
      && pubs[0] == Publication(PutDiffChannel, msg)
      && (|diff| == 1 ==>
            pubs[1..] == if diff[0].1.Some? then [Publication(NodesChannel(diff[0].0), msg)] else [])
      && (|diff| != 1 ==>
            forall j :: 1 <= j < |pubs| ==> pubs[j] == NodePublication(msg.id, TruthyEntries(diff)[j - 1]))
  {
    if msg.put.Some? {
      var diff := msg.put.value;
      var pubs := DiffPublications(msg);
      if |diff| == 1 {
        assert diff[..0] == [];
        assert TruthyEntries(diff) == if diff[0].1.Some? then [diff[0]] else [];
      } else {
        var t := TruthyEntries(diff);
        NodePublicationsAt(msg.id, t);
        assert pubs == [Publication(PutDiffChannel, msg)] + NodePublications(msg.id, t);
        forall j | 1 <= j < |pubs| ensures pubs[j] == NodePublication(msg.id, t[j - 1]) {
          assert pubs[j] == NodePublications(msg.id, t)[j - 1];
        }
      }
    }
  }

  /**
   * Split case: every soul whose delta is truthy is notified, on its own
   * channel, with exactly its own delta; no other soul is.
   */
  lemma {:induction false} SplitCoversTruthySouls(msg: Msg)
    requires msg.put.Some? && |msg.put.value| != 1
    ensures forall e :: e in msg.put.value && e.1.Some? <==>
      exists j :: 1 <= j < |DiffPublications(msg)| && DiffPublications(msg)[j] == NodePublication(msg.id, e)
  {
    var diff := msg.put.value;
    var t := TruthyEntries(diff);
    var pubs := DiffPublications(msg);
    DiffFanOut(msg);
    TruthyEntriesMembers(diff);
    forall e | e in diff && e.1.Some?
      ensures exists j :: 1 <= j < |pubs| && pubs[j] == NodePublication(msg.id, e)
    {
      var k :| 0 <= k < |t| && t[k] == e;
      assert pubs[k + 1] == NodePublication(msg.id, e);
    }
    forall e | exists j :: 1 <= j < |pubs| && pubs[j] == NodePublication(msg.id, e)
      ensures e in diff && e.1.Some?
    {
      var j :| 1 <= j < |pubs| && pubs[j] == NodePublication(msg.id, e);
      assert NodePublication(msg.id, t[j - 1]) == NodePublication(msg.id, e);
      assert t[j - 1] in t;
    }
  }

  /** `p + a == p + b` forces `a == b`. */
  lemma SuffixCancels(p: string, a: string, b: string)
    requires p + a == p + b
    ensures a == b
  {
    assert a == (p + a)[|p|..];
    assert b == (p + b)[|p|..];
  }

  /**
   * Split case: the message ids, and the channels of the per-soul messages,
   * are pairwise distinct, and no split id equals the original id.
   */
  lemma {:induction false} SplitIdsDistinct(msg: Msg)
    requires msg.put.Some? && |msg.put.value| != 1 && DistinctKeys(msg.put.value)
    ensures var pubs := DiffPublications(msg);
      forall i, j :: 0 <= i < j < |pubs| ==> pubs[i].msg.id != pubs[j].msg.id
    ensures var pubs := DiffPublications(msg);
      forall i, j :: 1 <= i < j < |pubs| ==> pubs[i].channel != pubs[j].channel
  {
    var diff := msg.put.value;
    var t := TruthyEntries(diff);
    var pubs := DiffPublications(msg);
    DiffFanOut(msg);
    TruthyEntriesDistinct(diff);
    forall i, j | 0 <= i < j < |pubs| ensures pubs[i].msg.id != pubs[j].msg.id {
      assert pubs[j].msg.id == msg.id + "/" + t[j - 1].0;
      if i == 0 {
        assert |pubs[j].msg.id| > |msg.id|;
      } else {
        assert pubs[i].msg.id == msg.id + "/" + t[i - 1].0;
        if pubs[i].msg.id == pubs[j].msg.id {
          assert msg.id + "/" + t[i - 1].0 == (msg.id + "/") + t[i - 1].0;
          assert msg.id + "/" + t[j - 1].0 == (msg.id + "/") + t[j - 1].0;
          SuffixCancels(msg.id + "/", t[i - 1].0, t[j - 1].0);
        }
      }
    }
    forall i, j | 1 <= i < j < |pubs| ensures pubs[i].channel != pubs[j].channel {
      if pubs[i].channel == pubs[j].channel {
        SuffixCancels("gun/nodes/", t[i - 1].0, t[j - 1].0);
      }
    }
  }

  /**
   * A put of two truthy nodes A and B under id m1 is published as the whole
   * diff on `gun/put/diff`, then `m1/A` on `gun/nodes/A` and `m1/B` on
   * `gun/nodes/B`.
   */
  lemma TwoSoulDiffExample(a: Node, b: Node)
    ensures
      var msg := Msg("m1", None, Some([("A", Some(a)), ("B", Some(b))]));
      DiffPublications(msg) == [
        Publication("gun/put/diff", msg),
        Publication("gun/nodes/A", Msg("m1/A", None, Some([("A", Some(a))]))),
        Publication("gun/nodes/B", Msg("m1/B", None, Some([("B", Some(b))])))]
  {
    var msg := Msg("m1", None, Some([("A", Some(a)), ("B", Some(b))]));
    var diff := msg.put.value;
    assert diff[..1] == [("A", Some(a))];
    assert diff[..1][..0] == [];
    assert TruthyEntries(diff) == diff;
    assert NodePublications("m1", diff[..1]) == [NodePublication("m1", diff[0])];
    assert "m1" + "/" + "A" == "m1/A";
    assert "m1" + "/" + "B" == "m1/B";
    assert NodesChannel("A") == "gun/nodes/A";
    assert NodesChannel("B") == "gun/nodes/B";
  }

  // ---------------------------------------------------------------------------
  // Write path (persistIncoming)
  // ---------------------------------------------------------------------------

  /** The entries `persistIncoming` copies into `putGraph`: non-empty soul and truthy node. */
  function KeptEntries(g: GraphData): (r: GraphData)
    ensures |r| <= |g|
    decreases |g|
  {
    if g == [] then []
    else
      var last := g[|g| - 1];
      KeptEntries(g[..|g| - 1]) + (if last.0 != "" && last.1.Some? then [last] else [])
  }

  /** `putGraph` holds exactly the entries with a non-empty soul and a truthy node. */
  lemma {:induction false} KeptEntriesMembers(g: GraphData)
    ensures forall e :: e in KeptEntries(g) <==> e in g && e.0 != "" && e.1.Some?
    decreases |g|
  {
    if g != [] {
      var init, last := g[..|g| - 1], g[|g| - 1];
      assert g == init + [last];
      KeptEntriesMembers(init);
    }
  }

  /** The store writes one incoming message causes: at most one, and none when nothing survives. */
  function PersistRequests(msg: Option<Msg>): seq<PutRequest> {
    if msg.None? || msg.value.put.None? then []
    else
      var putGraph := KeptEntries(msg.value.put.value);
      if putGraph == [] then [] else [PutRequest(msg.value.id, putGraph)]
  }

  /** Filtering commutes with concatenation: `putGraph` keeps the key order of `msg.put`. */
  lemma {:induction false} KeptEntriesAppend(a: GraphData, b: GraphData)
    ensures KeptEntries(a + b) == KeptEntries(a) + KeptEntries(b)
    decreases |b|
  {
    if b == [] {
      assert a + b == a;
    } else {
      var b' := b[..|b| - 1];
      assert (a + b)[..|a + b| - 1] == a + b';
      KeptEntriesAppend(a, b');
    }
  }

  /**
   * NabLmdbStorage's filter is the truthiness filter with entries under the
   * empty soul dropped: the two coincide exactly when no truthy node sits
   * under the empty soul.
   */
  lemma {:induction false} KeptEntriesVersusTruthy(g: GraphData)
    ensures KeptEntries(g) == TruthyEntries(g) <==> forall e :: e in g && e.1.Some? ==> e.0 != ""
    decreases |g|
  {
    if g != [] {
      var init, last := g[..|g| - 1], g[|g| - 1];
      assert g == init + [last];
      KeptEntriesVersusTruthy(init);
      KeptEntriesMembers(g);
      TruthyEntriesMembers(g);
      if forall e :: e in g && e.1.Some? ==> e.0 != "" {
        assert forall e :: e in init && e.1.Some? ==> e.0 != "";
      } else {
        var e :| e in g && e.1.Some? && e.0 == "";
        assert e in TruthyEntries(g) && e !in KeptEntries(g);
      }
    }
  }

  /**
   * An incoming message reaches the store, as one write, exactly when it has
   * a `put` with an entry under a non-empty soul whose node is truthy; the
   * write carries the request id and exactly those entries, nodes unchanged.
   */
  lemma PersistDecision(msg: Option<Msg>)
    ensures PersistRequests(msg) != [] <==>
      msg.Some? && msg.value.put.Some? && exists e :: e in msg.value.put.value && e.0 != "" && e.1.Some?
    ensures |PersistRequests(msg)| <= 1
    ensures PersistRequests(msg) != [] ==>
      var r := PersistRequests(msg)[0];
      && r.msgId == msg.value.id
      && r.graph != []
      && forall e :: e in r.graph <==> e in msg.value.put.value && e.0 != "" && e.1.Some?
  {
    if msg.Some? && msg.value.put.Some? {
      var g := KeptEntries(msg.value.put.value);
      KeptEntriesMembers(msg.value.put.value);
      if exists e :: e in msg.value.put.value && e.0 != "" && e.1.Some? {
        var e :| e in msg.value.put.value && e.0 != "" && e.1.Some?;
        assert e in g;
      } else if g != [] {
        assert g[0] in g;
      }
    }
  }

  // ---------------------------------------------------------------------------
  // Read path (respondToGets)
  // ---------------------------------------------------------------------------

  /**
   * The publications the read handler issues for one message: nothing for a
   * falsy message or one without a soul; otherwise, when the store has no
   * node, the original request on `gun/get/missing`, then always the store's
   * reply on `gun/@{msgId}`.
   */
  function GetResponses(nodes: map<Soul, Node>, msg: Option<Msg>): seq<Publication> {
    if msg.None? then []
    else
      var soul := RequestedSoul(msg.value);
      if soul == "" then []
      else
        var reply := GetReply(nodes, soul, msg.value.id);
        (if reply.put.None? then [Publication(GetMissingChannel, msg.value)] else [])
        + [Publication(ReplyChannel(msg.value.id), reply)]
  }

  /**
   * Read routing: dropped without a soul; otherwise the reply is published
   * last, on the request's reply channel, and carries the stored node when
   * there is one; when there is none the request is first published, once,
   * on `gun/get/missing`.
   */
  lemma GetRouting(nodes: map<Soul, Node>, msg: Option<Msg>)
    ensures GetResponses(nodes, msg) == [] <==> msg.None? || RequestedSoul(msg.value) == ""
    ensures GetResponses(nodes, msg) != [] ==>
      var pubs, soul := GetResponses(nodes, msg), RequestedSoul(msg.value);
      && |pubs| == (if soul in nodes then 1 else 2)
      && pubs[|pubs| - 1].channel == ReplyChannel(msg.value.id)
      && pubs[|pubs| - 1].msg.id == msg.value.id
      && (soul in nodes ==> pubs[0].msg.put == Some([(soul, Some(nodes[soul]))]))
      && (soul !in nodes ==> pubs[0] == Publication(GetMissingChannel, msg.value) && pubs[1].msg.put.None?)
  {
  }

  // ---------------------------------------------------------------------------
  // Thing upload (uploadThing, uploadThings)
  // ---------------------------------------------------------------------------

  /**
   * The object literal `{[thingSoul]: thing, [dataSoul]: thingData}`: two
   * entries, or one holding `thingData` when the two souls coincide.
   */
  function TwoSoulGraph(thingSoul: Soul, thing: Node, dataSoul: Soul, thingData: Node): GraphData {
    if thingSoul == dataSoul then [(thingSoul, Some(thingData))]
    else [(thingSoul, Some(thing)), (dataSoul, Some(thingData))]
  }

  /**
   * The graph `uploadThing` sends for a root soul: none when the root node,
   * its `data` link or the linked node is missing.
   */
  function UploadGraph(nodes: map<Soul, Node>, thingSoul: Soul): Option<GraphData> {
    match Lookup(nodes, thingSoul)
    case None => None
    case Some(thing) =>
      match DataSoul(thing)
      case None => None
      case Some(dataSoul) =>
        match Lookup(nodes, dataSoul)
        case None => None
        case Some(thingData) => Some(TwoSoulGraph(thingSoul, thing, dataSoul, thingData))
  }

  /**
   * The upload guard chain: a graph is sent exactly when the root node, its
   * truthy `data` link and the linked node all exist, and it holds exactly
   * the root soul and the data soul, each with the node stored under it.
   */
  lemma UploadGraphSpec(nodes: map<Soul, Node>, thingSoul: Soul)
    ensures UploadGraph(nodes, thingSoul).Some? <==>
      thingSoul in nodes && DataSoul(nodes[thingSoul]).Some? && DataSoul(nodes[thingSoul]).value in nodes
    ensures UploadGraph(nodes, thingSoul).Some? ==>
      var g, dataSoul := UploadGraph(nodes, thingSoul).value, DataSoul(nodes[thingSoul]).value;
      && Keys(g) == {thingSoul, dataSoul}
      && DistinctKeys(g)
      && forall e :: e in g ==> e.0 in nodes && e.1 == Some(nodes[e.0])
  {
    if UploadGraph(nodes, thingSoul).Some? {
      var g, dataSoul := UploadGraph(nodes, thingSoul).value, DataSoul(nodes[thingSoul]).value;
      if thingSoul == dataSoul {
        assert g == [(thingSoul, Some(nodes[thingSoul]))];
      } else {
        assert g == [(thingSoul, Some(nodes[thingSoul])), (dataSoul, Some(nodes[dataSoul]))];
      }
    }
  }

  /** The graphs one `uploadThing(thingId)` sends: zero or one. */
  function UploadOf(nodes: map<Soul, Node>, thingSoul: Soul): seq<GraphData> {
    match UploadGraph(nodes, thingSoul)
    case None => []
    case Some(g) => [g]
  }

  /** The graphs uploading `ids` one after the other sends, in order. */
  function Uploads(nodes: map<Soul, Node>, reverse: string -> Soul, ids: seq<string>): seq<GraphData>
    decreases |ids|
  {
    if ids == [] then []
    else Uploads(nodes, reverse, ids[..|ids| - 1]) + UploadOf(nodes, reverse(ids[|ids| - 1]))
  }

  /** Folding the awaited upload visitor over the ids appends their uploads in order. */
  lemma {:induction false} UploadsFold(
    nodes: map<Soul, Node>, reverse: string -> Soul,
    visit: (seq<GraphData>, string) -> seq<GraphData>, acc: seq<GraphData>, ids: seq<string>)
    requires forall sent, id :: visit(sent, id) == sent + UploadOf(nodes, reverse(id))
    ensures FoldVisits(visit, acc, ids) == acc + Uploads(nodes, reverse, ids)
    decreases |ids|
  {
    if ids != [] {
      UploadsFold(nodes, reverse, visit, acc, ids[..|ids| - 1]);
    }
  }

  /**
   * A bulk upload sends at most one graph per Thing id; every graph it sends
   * is the upload graph of one of the ids, and every id whose Thing is
   * complete (root node, `data` link and linked node) has its graph sent.
   */
  lemma {:induction false} UploadsAreThingGraphs(nodes: map<Soul, Node>, reverse: string -> Soul, ids: seq<string>)
    ensures |Uploads(nodes, reverse, ids)| <= |ids|
    ensures forall g :: g in Uploads(nodes, reverse, ids) ==>
      exists id :: id in ids && UploadGraph(nodes, reverse(id)) == Some(g)
    ensures forall id :: id in ids && UploadGraph(nodes, reverse(id)).Some? ==>
      UploadGraph(nodes, reverse(id)).value in Uploads(nodes, reverse, ids)
    decreases |ids|
  {
    if ids != [] {
      var init, last := ids[..|ids| - 1], ids[|ids| - 1];
      assert ids == init + [last];
      UploadsAreThingGraphs(nodes, reverse, init);
      forall g | g in Uploads(nodes, reverse, ids)
        ensures exists id :: id in ids && UploadGraph(nodes, reverse(id)) == Some(g)
      {
        if g in Uploads(nodes, reverse, init) {
          var id :| id in init && UploadGraph(nodes, reverse(id)) == Some(g);
          assert id in ids;
        } else {
          assert last in ids;
        }
      }
      forall id | id in ids && UploadGraph(nodes, reverse(id)).Some?
        ensures UploadGraph(nodes, reverse(id)).value in Uploads(nodes, reverse, ids)
      {
        if id != last {
          assert id in init;
        }
      }
    }
  }

  /** The positions of `s` whose element satisfies `p`. */
  function Positions<T>(s: seq<T>, p: T -> bool): set<int> {
    set k | 0 <= k < |s| && p(s[k])
  }

  /** Extending a sequence by one element adds its position exactly when it satisfies `p`. */
  lemma PositionsSnoc<T>(s: seq<T>, p: T -> bool)
    requires s != []
    ensures |Positions(s, p)| == |Positions(s[..|s| - 1], p)| + (if p(s[|s| - 1]) then 1 else 0)
  {
    var n := |s| - 1;
    var before, after := Positions(s[..n], p), Positions(s, p);
    var added := if p(s[n]) then {n} else {};
    forall k | k in after ensures k in before + added {
      if k < n {
        assert s[..n][k] == s[k];
      }
    }
    forall k | k in before + added ensures k in after {
      if k < n {
        assert s[..n][k] == s[k];
      }
    }
    assert after == before + added;
    assert n !in before;
  }

  /** Whether the Thing an id routes to is complete: root node, `data` link and linked node. */
  function Complete(nodes: map<Soul, Node>, reverse: string -> Soul): string -> bool {
    id => UploadGraph(nodes, reverse(id)).Some?
  }

  /** A bulk upload sends exactly as many graphs as there are ids whose Thing is complete. */
  lemma {:induction false} UploadCount(nodes: map<Soul, Node>, reverse: string -> Soul, ids: seq<string>)
    ensures |Uploads(nodes, reverse, ids)| == |Positions(ids, Complete(nodes, reverse))|
    decreases |ids|
  {
    if ids != [] {
      UploadCount(nodes, reverse, ids[..|ids| - 1]);
      PositionsSnoc(ids, Complete(nodes, reverse));
    }
  }

  // ---------------------------------------------------------------------------
  // The relay object
  // ---------------------------------------------------------------------------

  class NabLmdbStorage {
    /** The store connector. */
    const lmdb: NabLmdbGraphConnector
    /** The Thing route of the application schema. */
    const route: ThingRoute
    /** Every `publishToChannel` call, in order. */
    var log: seq<Publication>
    /** Every `lmdb.put` call, in order. */
    var puts: seq<PutRequest>
    /** Every graph sent with `socket.put`, in order. */
    var uploads: seq<GraphData>

    /** Every store write carries a non-empty graph of truthy nodes under non-empty souls. */
    ghost predicate Valid()
      reads this
    {
      forall r :: r in puts ==> r.graph != [] && forall e :: e in r.graph ==> e.0 != "" && e.1.Some?
    }

    constructor (lmdb: NabLmdbGraphConnector, route: ThingRoute)
      ensures Valid()
      ensures this.lmdb == lmdb && this.route == route
      ensures log == [] && puts == [] && uploads == []
    {
      this.lmdb := lmdb;
      this.route := route;
      log, puts, uploads := [], [], [];
    }

    /** The handler of `gun/get/validated`. */
    method RespondToGet(msg: Option<Msg>)
      modifies this`log
      ensures log == old(log) + GetResponses(lmdb.nodes, msg)
    {
      if msg.None? {
        return;
      }
      var msgId := msg.value.id;
      var soul := RequestedSoul(msg.value);
      if soul == "" {
        return;
      }
      var m := GetReply(lmdb.nodes, soul, msgId);
      if m.put.None? {
        log := log + [Publication(GetMissingChannel, msg.value)];
      }
      log := log + [Publication(ReplyChannel(msgId), m)];
    }

    /** The handler of `gun/put/validated`: builds `putGraph` and hands it to the store. */
    method PersistIncoming(msg: Option<Msg>)
      requires Valid()
      modifies this`puts
      ensures Valid()
      ensures puts == old(puts) + PersistRequests(msg)
    {
      if msg.None? {
        return;
      }
      if msg.value.put.None? {
        return;
      }
      var data := msg.value.put.value;
      var msgId := msg.value.id;
      var putGraph: GraphData := [];
      var hasNodes := false;
      var i := 0;
      while i < |data|
        invariant 0 <= i <= |data|
        invariant putGraph == KeptEntries(data[..i])
        invariant hasNodes <==> putGraph != []
      {
        var (soul, node) := data[i];
        assert data[..i + 1][..i] == data[..i];
        if soul != "" && node.Some? {
          putGraph := putGraph + [(soul, node)];
          hasNodes := true;
        }
        i := i + 1;
      }
      assert data[..i] == data;
      KeptEntriesMembers(data);
      if !hasNodes {
        return;
      }
      puts := puts + [PutRequest(msgId, putGraph)];
    }

    /** The store's write acknowledgement, republished on the request's reply channel. */
    method OnPutAck(msgId: string, m: Msg)
      modifies this`log
      ensures log == old(log) + [Publication(ReplyChannel(msgId), m)]
    {
      log := log + [Publication(ReplyChannel(msgId), m)];
    }

    /** `publishDiff(msg)`: the store's callback with the diff it committed. */
    method PublishDiff(msg: Msg)
      modifies this`log
      ensures log == old(log) + DiffPublications(msg)
    {
      if msg.put.None? {
        return;
      }
      var diff := msg.put.value;
      log := log + [Publication(PutDiffChannel, msg)];
      if |diff| == 1 {
        var soul := diff[0].0;
        if diff[0].1.None? {
          return;
        }
        log := log + [Publication(NodesChannel(soul), msg)];
        return;
      }
      PublishSplit(msg.id, diff);
    }

    /** The loop of `publishDiff` over the souls of a diff that does not have exactly one. */
    method PublishSplit(msgId: string, diff: GraphData)
      modifies this`log
      ensures log == old(log) + NodePublications(msgId, TruthyEntries(diff))
    {
      ghost var start, notified: GraphData := log, [];
      var i := 0;
      while i < |diff|
        invariant 0 <= i <= |diff|
        invariant notified == TruthyEntries(diff[..i])
        invariant log == start + NodePublications(msgId, notified)
      {
        // `diff[soul]` of a JavaScript object is the value of the entry with that key
        var (soul, nodeDiff) := diff[i];
        TruthyEntriesStep(diff, i);
        if nodeDiff.Some? {
          var split := Publication(NodesChannel(soul), Msg(msgId + "/" + soul, None, Some([(soul, nodeDiff)])));
          assert split == NodePublication(msgId, diff[i]);
          NodePublicationsSnoc(msgId, notified, diff[i]);
          assert start + NodePublications(msgId, notified + [diff[i]]) == log + [split];
          log := log + [split];
          notified := notified + [diff[i]];
        }
        i := i + 1;
      }
      assert diff[..i] == diff;
    }

    /** `uploadThing(thingId)`: the guard chain, then one `socket.put` of the Thing's two nodes. */
    method UploadThing(thingId: string)
      modifies this`uploads
      ensures uploads == old(uploads) + UploadOf(lmdb.nodes, route.reverse(thingId))
    {
      var thingSoul := route.reverse(thingId);
      var thing := lmdb.ReadNode(thingSoul);
      if thing.None? {
        return;
      }
      var dataSoul := DataSoul(thing.value);
      if dataSoul.None? {
        return;
      }
      var thingData := lmdb.ReadNode(dataSoul.value);
      if thingData.None? {
        return;
      }
      uploads := uploads + [TwoSoulGraph(thingSoul, thing.value, dataSoul.value, thingData.value)];
    }

    /** `uploadThings()`: the awaited scan with `uploadThing` as its visitor. */
    method UploadThings()
      requires lmdb.Valid()
      modifies this`uploads
      ensures uploads == old(uploads) + Uploads(lmdb.nodes, route.reverse, ScannedIds(lmdb.keys, route.matchSoul))
    {
      var nodes, reverse := lmdb.nodes, route.reverse;
      var visit := (sent: seq<GraphData>, id: string) => sent + UploadOf(nodes, reverse(id));
      var sent, count := lmdb.EachThingIdAsync(route, visit, uploads);
      UploadsFold(nodes, reverse, visit, uploads, ScannedIds(lmdb.keys, route.matchSoul));
      uploads := sent;
    }
  }
}
