/**
 * The values the relay passes around: souls, nodes, graph data, messages,
 * channel publications and the Thing route, together with the truthiness
 * filter that both relay variants and the diff publisher apply to graph data.
 */
module GunTypes {
  import opened Wrappers

  /** A content address identifying one node of the graph. */
  type Soul = string

  /** A field value of a node. `Link(s)` is GUN's edge object `{'#': s}`. */
  datatype Value = Link(target: Soul) | Scalar(text: string)

  /** A node: its fields by name. State vectors are the CRDT library's concern. */
  datatype Node = Node(fields: map<string, Value>)

  /**
   * Graph data as a JavaScript object: its entries in key enumeration order.
   * `None` stands for a falsy node value (`null`, `undefined`, `false`, ...).
   */
  type GraphData = seq<(Soul, Option<Node>)>

  /** The keys of a JavaScript object are pairwise distinct. */
  predicate DistinctKeys(g: GraphData) {
    forall i, j :: 0 <= i < j < |g| ==> g[i].0 != g[j].0
  }

  /** The set of souls a graph mentions. */
  function Keys(g: GraphData): set<Soul> {
    set e | e in g :: e.0
  }

  /**
   * A wire message `{'#': id, get: {'#': soul}, put: graph}`. `get` holds the
   * value of `get['#']` (absent when there is no `get`), `put` the graph data
   * (absent when `put` is falsy).
   */
  datatype Msg = Msg(id: string, get: Option<Soul>, put: Option<GraphData>)

  /** One call `publishToChannel(channel, msg)` on the transport. */
  datatype Publication = Publication(channel: string, msg: Msg)

  /** One call `lmdb.put({msgId, graph, ...})`: the graph handed to the store for merging. */
  datatype PutRequest = PutRequest(msgId: string, graph: GraphData)

  const PutDiffChannel: string := "gun/put/diff"
  const GetMissingChannel: string := "gun/get/missing"
  /** Key prefix under which Thing roots are stored. */
  const ThingsPrefix: string := "nab/things/"

  /** `gun/nodes/{soul}`: the per-soul notification channel. */
  function NodesChannel(soul: Soul): string {
    "gun/nodes/" + soul
  }

  /** `gun/@{msgId}`: the reply channel of a request. */
  function ReplyChannel(msgId: string): string {
    "gun/@" + msgId
  }

  /**
   * The Thing route of the application schema, which this model does not
   * interpret: `reverse` maps a Thing id to its root soul, `matchSoul` maps a
   * soul to the `thingId` it matches, if any.
   */
  datatype ThingRoute = ThingRoute(reverse: string -> Soul, matchSoul: Soul -> Option<string>)

  /** `(msg.get && msg.get['#']) || ''`: the soul a read request asks for. */
  function RequestedSoul(msg: Msg): (soul: Soul)
    ensures soul != "" <==> msg.get.Some? && msg.get.value != ""
    ensures soul != "" ==> soul == msg.get.value
  {
    match msg.get
    case None => ""
    case Some(s) => s
  }

  /** `node.data && node.data['#']`: the soul the `data` field links to, when truthy. */
  function DataSoul(node: Node): (link: Option<Soul>)
    ensures link.Some? <==> "data" in node.fields && node.fields["data"].Link? && node.fields["data"].target != ""
    ensures link.Some? ==> link.value == node.fields["data"].target
  {
    if "data" in node.fields && node.fields["data"].Link? && node.fields["data"].target != ""
    then Some(node.fields["data"].target)
    else None
  }

  /** A point lookup in a store. */
  function Lookup(store: map<Soul, Node>, soul: Soul): (r: Option<Node>)
    ensures r.Some? <==> soul in store
    ensures r.Some? ==> r.value == store[soul]
  {
    if soul in store then Some(store[soul]) else None
  }

  /** The entries of `g` whose node is truthy, in key order, values unchanged. */
  function TruthyEntries(g: GraphData): (r: GraphData)
    ensures |r| <= |g|
    decreases |g|
  {
    if g == [] then []
    else TruthyEntries(g[..|g| - 1]) + (if g[|g| - 1].1.Some? then [g[|g| - 1]] else [])
  }

  /** The filter keeps exactly the entries whose node is truthy. */
  lemma {:induction false} TruthyEntriesMembers(g: GraphData)
    ensures forall e :: e in TruthyEntries(g) <==> e in g && e.1.Some?
    decreases |g|
  {
    if g != [] {
      var init, last := g[..|g| - 1], g[|g| - 1];
      assert g == init + [last];
      TruthyEntriesMembers(init);
    }
  }

  /** Extending a prefix of `g` by one entry adds that entry exactly when its node is truthy. */
  lemma TruthyEntriesStep(g: GraphData, i: nat)
    requires i < |g|
    ensures g[i].1.None? ==> TruthyEntries(g[..i + 1]) == TruthyEntries(g[..i])
    ensures g[i].1.Some? ==> TruthyEntries(g[..i + 1]) == TruthyEntries(g[..i]) + [g[i]]
  {
    assert g[..i + 1][..i] == g[..i];
    assert TruthyEntries(g[..i]) + [] == TruthyEntries(g[..i]);
  }

  /** Filtering commutes with concatenation, so key order is kept. */
  lemma {:induction false} TruthyEntriesAppend(a: GraphData, b: GraphData)
    ensures TruthyEntries(a + b) == TruthyEntries(a) + TruthyEntries(b)
    decreases |b|
  {
    if b == [] {
      assert a + b == a;
    } else {
      var b' := b[..|b| - 1];
      assert (a + b)[..|a + b| - 1] == a + b';
      TruthyEntriesAppend(a, b');
    }
  }

  /** Filtering a JavaScript object yields a JavaScript object. */
  lemma {:induction false} TruthyEntriesDistinct(g: GraphData)
    requires DistinctKeys(g)
    ensures DistinctKeys(TruthyEntries(g))
    decreases |g|
  {
    if g != [] {
      var init, last := g[..|g| - 1], g[|g| - 1];
      assert DistinctKeys(init);
      TruthyEntriesDistinct(init);
      TruthyEntriesMembers(init);
      var t := TruthyEntries(init);
      forall e | e in t ensures e.0 != last.0 {
        var i :| 0 <= i < |init| && init[i] == e;
        assert g[i] == e;
      }
    }
  }
}
