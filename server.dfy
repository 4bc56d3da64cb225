/**
 * The validation gate of the HTTP server: a graph adapter whose `put` only
 * reaches the wrapped adapter when the validity oracle accepts the whole graph,
 * and which offers no synchronous write.
 */
module Server {
  import opened Wrappers
  import opened GunTypes

  /** The contents of the store behind an adapter. */
  type Store = map<Soul, Node>

  /** A JavaScript `Error` with its message. */
  datatype Error = Error(message: string)

  const InvalidGraphData: string := "Invalid graph data"
  /** The message id `validateGraph` wraps a graph in. */
  const DummyMsgId: string := "dummymsgid"

  /**
   * A graph adapter: reads, and writes that turn a store into a new store or
   * fail. The synchronous members are optional, as in the adapter interface.
   */
  datatype GraphAdapter = GraphAdapter(
    get: (Store, Soul) -> Option<Node>,
    getSync: Option<(Store, Soul) -> Option<Node>>,
    put: (Store, GraphData) -> Result<Store, Error>,
    putSync: Option<(Store, GraphData) -> Result<Store, Error>>)

  /** `makeValidationAdapter(adapter, validate)`. */
  function MakeValidationAdapter(adapter: GraphAdapter, validate: GraphData -> bool): (gated: GraphAdapter)
    ensures gated.putSync.None?
    ensures gated.get == adapter.get && gated.getSync == adapter.getSync
  {
    adapter.(
      put := (store: Store, graph: GraphData) =>
        if validate(graph) then adapter.put(store, graph) else Failure(Error(InvalidGraphData)),
      putSync := None)
  }

  /**
   * A gated write the oracle rejects fails with `Invalid graph data` whatever
   * the wrapped adapter would have done: the wrapped `put` is not consulted,
   * so no store results from it.
   */
  lemma GateRejects(adapter: GraphAdapter, other: GraphAdapter, validate: GraphData -> bool, store: Store, graph: GraphData)
    requires !validate(graph)
    ensures MakeValidationAdapter(adapter, validate).put(store, graph) == Failure(Error(InvalidGraphData))
    ensures MakeValidationAdapter(adapter, validate).put(store, graph) == MakeValidationAdapter(other, validate).put(store, graph)
  {
  }

  /** A gated write the oracle accepts is exactly the wrapped adapter's write of the same graph. */
  lemma GateAccepts(adapter: GraphAdapter, validate: GraphData -> bool, store: Store, graph: GraphData)
    requires validate(graph)
    ensures MakeValidationAdapter(adapter, validate).put(store, graph) == adapter.put(store, graph)
  {
  }

  /** `{'#': 'dummymsgid', put: graph}`: the message the oracle judges. */
  function ValidationMessage(graph: GraphData): (m: Msg)
    ensures m.put == Some(graph) && m.get.None? && m.id == DummyMsgId
  {
    Msg(DummyMsgId, None, Some(graph))
  }

  /** `validateGraph(graph)`: the suppressor's verdict on the whole graph as one message. */
  function ValidateGraph(suppress: Msg -> bool, graph: GraphData): bool {
    suppress(ValidationMessage(graph))
  }

  /** The adapter `makeServer` serves: the store adapter gated by `validateGraph`. */
  function ServerAdapter(store: GraphAdapter, suppress: Msg -> bool): GraphAdapter {
    MakeValidationAdapter(store, graph => ValidateGraph(suppress, graph))
  }

  /**
   * A write through the server's adapter succeeds only if the suppressor
   * accepted the entire, unmodified graph, and then yields exactly the
   * store's own write; there is no synchronous write to go around it.
   */
  lemma ServerWritesAreValidated(store: GraphAdapter, suppress: Msg -> bool, contents: Store, graph: GraphData)
    ensures ServerAdapter(store, suppress).putSync.None?
    ensures ServerAdapter(store, suppress).put(contents, graph).Success? ==>
      suppress(Msg(DummyMsgId, None, Some(graph))) && ServerAdapter(store, suppress).put(contents, graph) == store.put(contents, graph)
    ensures !suppress(Msg(DummyMsgId, None, Some(graph))) ==>
      ServerAdapter(store, suppress).put(contents, graph) == Failure(Error(InvalidGraphData))
  {
  }
}
