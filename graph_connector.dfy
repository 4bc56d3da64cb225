/**
 * The store connector: a point lookup, the reply the store gives to a read
 * request, and the two cursor scans that enumerate Thing ids. The store is a
 * map from soul to node together with its keys in cursor order; the scans run
 * over a read-only snapshot and never write.
 */
module GraphConnector {
  import opened Wrappers
  import opened GunTypes

  /** Strict lexicographic order on keys, character by character: the cursor's order. */
  predicate LexLess(a: string, b: string)
    decreases |a|
  {
    if b == [] then false
    else if a == [] then true
    else if a[0] != b[0] then a[0] < b[0]
    else LexLess(a[1..], b[1..])
  }

  lemma {:induction false} LexLessTransitive(a: string, b: string, c: string)
    requires LexLess(a, b) && LexLess(b, c)
    ensures LexLess(a, c)
    decreases |a|
  {
    if a != [] && a[0] == b[0] && b[0] == c[0] {
      LexLessTransitive(a[1..], b[1..], c[1..]);
    }
  }

  /** The keyspace in cursor order: strictly ascending, hence without duplicates. */
  predicate Sorted(keys: seq<Soul>) {
    forall i, j :: 0 <= i < j < |keys| ==> LexLess(keys[i], keys[j])
  }

  /** `cursor.goToRange(prefix)`: the position of the first key that is not below `prefix`. */
  function RangeStart(keys: seq<Soul>, prefix: string): (lo: nat)
    ensures lo <= |keys|
    ensures forall i :: 0 <= i < lo ==> LexLess(keys[i], prefix)
    ensures lo < |keys| ==> !LexLess(keys[lo], prefix)
    decreases |keys|
  {
    if keys == [] || !LexLess(keys[0], prefix) then 0
    else
      var lo' := RangeStart(keys[1..], prefix);
      assert forall i :: 1 <= i < 1 + lo' ==> keys[i] == keys[1..][i - 1];
      1 + lo'
  }

  /**
   * On a sorted keyspace the cursor positioned by `goToRange(prefix)` and
   * advanced to the end visits exactly the keys that are not below `prefix`:
   * all of them, not only those that start with it.
   */
  lemma {:induction false} RangeStartSplits(keys: seq<Soul>, prefix: string)
    requires Sorted(keys)
    ensures forall i :: 0 <= i < |keys| ==> (RangeStart(keys, prefix) <= i <==> !LexLess(keys[i], prefix))
  {
    var lo := RangeStart(keys, prefix);
    forall i | lo < i < |keys| ensures !LexLess(keys[i], prefix) {
      if LexLess(keys[i], prefix) {
        LexLessTransitive(keys[lo], keys[i], prefix);
      }
    }
  }

  /**
   * Every key the scan reaches on a sorted keyspace is non-empty, hence
   * truthy: `while (soul)` stops only at the end of the keyspace.
   */
  lemma ScannedKeysAreTruthy(keys: seq<Soul>)
    requires Sorted(keys)
    ensures forall i :: RangeStart(keys, ThingsPrefix) <= i < |keys| ==> keys[i] != ""
  {
    RangeStartSplits(keys, ThingsPrefix);
  }

  /** The keys the scans visit: from the first key not below `nab/things/` to the end. */
  function ScannedKeys(keys: seq<Soul>): seq<Soul> {
    keys[RangeStart(keys, ThingsPrefix)..]
  }

  /**
   * The scan does not stop where the `nab/things/` prefix ends: a key after
   * the Thing range is visited too, and only the route decides what it yields.
   */
  lemma ScanPassesPrefixEnd()
    ensures ScannedKeys(["a", "nab/things/1", "nab/zzz"]) == ["nab/things/1", "nab/zzz"]
  {
    var keys := ["a", "nab/things/1", "nab/zzz"];
    assert LexLess("a", ThingsPrefix);
    assert ThingsPrefix + "1" == "nab/things/1";
    PrefixIsNotBelow(ThingsPrefix, "1");
    assert keys[1..] == ["nab/things/1", "nab/zzz"];
    assert RangeStart(keys[1..], ThingsPrefix) == 0;
  }

  /** A key that starts with a prefix is not below it: `goToRange` never skips such a key. */
  lemma {:induction false} PrefixIsNotBelow(prefix: string, rest: string)
    ensures !LexLess(prefix + rest, prefix)
    decreases |prefix|
  {
    if prefix != [] {
      assert (prefix + rest)[0] == prefix[0];
      assert (prefix + rest)[1..] == prefix[1..] + rest;
      PrefixIsNotBelow(prefix[1..], rest);
    }
  }

  /** `match && match.thingId`: the Thing id a key yields, if it is truthy. */
  function MatchedId(matchSoul: Soul -> Option<string>, key: Soul): (id: Option<string>)
    ensures id.Some? <==> matchSoul(key).Some? && matchSoul(key).value != ""
    ensures id.Some? ==> id.value == matchSoul(key).value
  {
    match matchSoul(key)
    case Some(thingId) => if thingId != "" then Some(thingId) else None
    case None => None
  }

  /**
   * The visitor's arguments while the cursor walks positions `lo` to `hi - 1`:
   * one per key with a truthy match, in key order.
   */
  function ThingIds(keys: seq<Soul>, lo: nat, hi: nat, matchSoul: Soul -> Option<string>): (ids: seq<string>)
    requires lo <= hi <= |keys|
    ensures |ids| <= hi - lo
    decreases hi - lo
  {
    if hi == lo then []
    else
      ThingIds(keys, lo, hi - 1, matchSoul) +
      (match MatchedId(matchSoul, keys[hi - 1]) case Some(id) => [id] case None => [])
  }

  /** The visitor's arguments over a whole scan. */
  function ScannedIds(keys: seq<Soul>, matchSoul: Soul -> Option<string>): seq<string> {
    ThingIds(keys, RangeStart(keys, ThingsPrefix), |keys|, matchSoul)
  }

  /** The visitor receives an id exactly when some visited key yields it. */
  lemma {:induction false} ThingIdsMembers(keys: seq<Soul>, lo: nat, hi: nat, matchSoul: Soul -> Option<string>)
    requires lo <= hi <= |keys|
    ensures forall id :: id in ThingIds(keys, lo, hi, matchSoul) <==>
      exists k :: lo <= k < hi && MatchedId(matchSoul, keys[k]) == Some(id)
    decreases hi - lo
  {
    if hi > lo {
      var prev, last := ThingIds(keys, lo, hi - 1, matchSoul), MatchedId(matchSoul, keys[hi - 1]);
      var ids := ThingIds(keys, lo, hi, matchSoul);
      assert ids == prev + match last case Some(id) => [id] case None => [];
      ThingIdsMembers(keys, lo, hi - 1, matchSoul);
      forall id | id in ids
        ensures exists k :: lo <= k < hi && MatchedId(matchSoul, keys[k]) == Some(id)
      {
        if id in prev {
          var k :| lo <= k < hi - 1 && MatchedId(matchSoul, keys[k]) == Some(id);
          assert lo <= k < hi;
        } else {
          assert last == Some(id);
        }
      }
      forall id | exists k :: lo <= k < hi && MatchedId(matchSoul, keys[k]) == Some(id)
        ensures id in ids
      {
        var k :| lo <= k < hi && MatchedId(matchSoul, keys[k]) == Some(id);
        if k < hi - 1 {
          assert id in prev;
        } else {
          assert last == Some(id);
        }
      }
    }
  }

  /** Visits of consecutive runs of keys follow each other: the ids come in key order. */
  lemma {:induction false} ThingIdsSplit(keys: seq<Soul>, lo: nat, mid: nat, hi: nat, matchSoul: Soul -> Option<string>)
    requires lo <= mid <= hi <= |keys|
    ensures ThingIds(keys, lo, hi, matchSoul) == ThingIds(keys, lo, mid, matchSoul) + ThingIds(keys, mid, hi, matchSoul)
    decreases hi - mid
  {
    if hi == mid {
      assert ThingIds(keys, lo, mid, matchSoul) + [] == ThingIds(keys, lo, mid, matchSoul);
    } else {
      ThingIdsSplit(keys, lo, mid, hi - 1, matchSoul);
    }
  }

  /** The state an awaited visitor reaches after visiting `ids` one after the other. */
  function FoldVisits<S>(visit: (S, string) -> S, init: S, ids: seq<string>): S
    decreases |ids|
  {
    if ids == [] then init
    else visit(FoldVisits(visit, init, ids[..|ids| - 1]), ids[|ids| - 1])
  }

  lemma FoldVisitsStep<S>(visit: (S, string) -> S, init: S, ids: seq<string>, id: string)
    ensures FoldVisits(visit, init, ids + [id]) == visit(FoldVisits(visit, init, ids), id)
  {
    assert (ids + [id])[..|ids|] == ids;
  }

  /**
   * The store's reply to `get({soul, msgId, cb})`: the node under `soul` as
   * `{'#': msgId, put: {soul: node}}`, or `{'#': msgId}` without `put` when
   * the soul is absent.
   */
  function GetReply(nodes: map<Soul, Node>, soul: Soul, msgId: string): (m: Msg)
    ensures m.id == msgId && m.get.None?
    ensures m.put.Some? <==> soul in nodes
    ensures soul in nodes ==> m.put == Some([(soul, Some(nodes[soul]))])
  {
    if soul in nodes then Msg(msgId, None, Some([(soul, Some(nodes[soul]))]))
    else Msg(msgId, None, None)
  }

  /** The store connector, over a snapshot of the store. */
  class NabLmdbGraphConnector {
    /** The stored keys in cursor order. */
    const keys: seq<Soul>
    /** The stored node of each key. */
    const nodes: map<Soul, Node>

    ghost predicate Valid()
      reads this
    {
      Sorted(keys) && forall k :: k in keys <==> k in nodes
    }

    constructor (keys: seq<Soul>, nodes: map<Soul, Node>)
      requires Sorted(keys) && forall k :: k in keys <==> k in nodes
      ensures Valid() && this.keys == keys && this.nodes == nodes
    {
      this.keys := keys;
      this.nodes := nodes;
    }

    /** `readNode(soul)`: the stored node, or absent; reads only. */
    function ReadNode(soul: Soul): (r: Option<Node>)
      reads this
      ensures r.Some? <==> soul in nodes
      ensures r.Some? ==> r.value == nodes[soul]
    {
      Lookup(nodes, soul)
    }

    /**
     * `eachThingId(cb)`: positions the cursor at the first key not below
     * `nab/things/`, walks to the end of the keyspace and calls the visitor
     * with every truthy Thing id the route yields. Returns the visitor's
     * arguments in call order and the number of keys visited.
     */
    method EachThingId(route: ThingRoute) returns (ids: seq<string>, count: nat)
      requires Valid()
      ensures ids == ScannedIds(keys, route.matchSoul)
      ensures count == |ScannedKeys(keys)|
    {
      var i := RangeStart(keys, ThingsPrefix);
      ghost var lo := i;
      ScannedKeysAreTruthy(keys);
      ids, count := [], 0;
      while i < |keys| && keys[i] != ""
        invariant lo <= i <= |keys|
        invariant ids == ThingIds(keys, lo, i, route.matchSoul)
        invariant count == i - lo
      {
        var m := MatchedId(route.matchSoul, keys[i]);
        if m.Some? {
          ids := ids + [m.value];
        }
        i, count := i + 1, count + 1;
      }
    }

    /**
     * `eachThingIdAsync(cb)`: the same scan with an awaited visitor, modelled
     * as a state transformer; each visit finishes, and its state is handed on,
     * before the cursor advances.
     */
    method EachThingIdAsync<S>(route: ThingRoute, visit: (S, string) -> S, init: S) returns (state: S, count: nat)
      requires Valid()
      ensures state == FoldVisits(visit, init, ScannedIds(keys, route.matchSoul))
      ensures count == |ScannedKeys(keys)|
    {
      var i := RangeStart(keys, ThingsPrefix);
      ghost var lo := i;
      ScannedKeysAreTruthy(keys);
      state, count := init, 0;
      ghost var visited: seq<string> := [];
      while i < |keys| && keys[i] != ""
        invariant lo <= i <= |keys|
        invariant visited == ThingIds(keys, lo, i, route.matchSoul)
        invariant state == FoldVisits(visit, init, visited)
        invariant count == i - lo
      {
        var m := MatchedId(route.matchSoul, keys[i]);
        ghost var before := visited;
        if m.Some? {
          state := visit(state, m.value);
          visited := visited + [m.value];
        }
        assert state == FoldVisits(visit, init, visited) by {
          if m.Some? {
            FoldVisitsStep(visit, init, before, m.value);
          }
        }
        i, count := i + 1, count + 1;
      }
    }
  }
}
