/**
 * `NodeInfo` of the config node: the in-memory registry of online data nodes
 * (keyed by data node id, iterated in key order), the data node id counter and
 * the online config nodes.
 */
module NodeInfo {
  import opened Wrappers
  import opened JavaLang
  import opened DispatchTypes

  /** `TDataNodeLocation`: its id and the endpoints that the id does not cover. */
  datatype DataNodeLocation = DataNodeLocation(dataNodeId: Int, endpoints: seq<Endpoint>)

  /** `TDataNodeInfo`: a location and the node's resources. */
  datatype DataNodeInfo = DataNodeInfo(location: DataNodeLocation, cpuCoreNum: int, maxMemory: int)

  /** `TConfigNodeLocation`. */
  datatype ConfigNodeLocation = ConfigNodeLocation(internalEndPoint: Endpoint, consensusEndPoint: Endpoint)

  datatype StatusCode = SUCCESS_STATUS | APPLY_CONFIGNODE_FAILED

  /** `TSStatus`: a code and an optional message. */
  datatype TSStatus = TSStatus(code: StatusCode, message: Option<string>)

  const REGISTER_MORE_PREFIX: string := "To enable IoTDB-Cluster's data service, please register "
  const REGISTER_MORE_SUFFIX: string := " more IoTDB-DataNode"
  const DATA_SERVICE_READY: string := "IoTDB-Cluster could provide data service, now enjoy yourself!"
  const APPLY_FAILED_MESSAGE: string :=
    "Apply new ConfigNode failed because current ConfigNode can't store ConfigNode information."

  /** The message `registerDataNode` attaches, given the counter after registration. */
  function RegisterMessage(next: Int, minimumDataNode: Int): (msg: Option<string>)
    ensures msg.None? <==> next > minimumDataNode
    ensures next == minimumDataNode ==> msg == Some(DATA_SERVICE_READY)
    ensures next < minimumDataNode ==>
      msg == Some(REGISTER_MORE_PREFIX + LongToString(Wrap32(minimumDataNode - next)) + REGISTER_MORE_SUFFIX)
  {
    if next < minimumDataNode then
      Some(REGISTER_MORE_PREFIX + LongToString(Wrap32(minimumDataNode - next)) + REGISTER_MORE_SUFFIX)
    else if next == minimumDataNode then Some(DATA_SERVICE_READY)
    else None
  }

  /**
   * While the counter has not wrapped, the "register k more" message names exactly
   * how many data nodes are missing: its number reads back as the difference.
   */
  lemma RegisterMessageCountsMissing(next: Int, minimumDataNode: Int)
    requires 0 <= next < minimumDataNode
    ensures exists digits ::
      && RegisterMessage(next, minimumDataNode) == Some(REGISTER_MORE_PREFIX + digits + REGISTER_MORE_SUFFIX)
      && ParseLong(digits) == Ok(minimumDataNode - next)
  {
    assert IsInt(minimumDataNode);
    var k: Long := minimumDataNode - next;
    assert Wrap32(k) == k;
    ParseLongOfToString(k);
    var digits := LongToString(k);
    assert RegisterMessage(next, minimumDataNode) == Some(REGISTER_MORE_PREFIX + digits + REGISTER_MORE_SUFFIX);
  }

  /** `m` is the least element of `s`. */
  predicate IsMin(m: Int, s: set<Int>)
  {
    m in s && forall x :: x in s ==> m <= x
  }

  lemma {:induction false} MinExists(s: set<Int>)
    requires s != {}
    ensures exists m :: IsMin(m, s)
    decreases |s|
  {
    var x :| x in s;
    if s != {x} {
      MinExists(s - {x});
      var y :| IsMin(y, s - {x});
      assert forall z :: z in s ==> z == x || z in s - {x};
      if x < y {
        assert IsMin(x, s);
      } else {
        assert IsMin(y, s);
      }
    } else {
      assert IsMin(x, s);
    }
  }

  ghost predicate Increasing(ks: seq<Int>)
  {
    forall i, j :: 0 <= i < j < |ks| ==> ks[i] < ks[j]
  }

  /** The keys of a `ConcurrentSkipListMap` in iteration order: smallest first. */
  ghost function SortedKeys(s: set<Int>): seq<Int>
    decreases |s|
  {
    if s == {} then []
    else
      MinExists(s);
      var m :| IsMin(m, s);
      [m] + SortedKeys(s - {m})
  }

  /** The iteration order lists every key once, ascending. */
  lemma {:induction false} SortedKeysSpec(s: set<Int>)
    ensures |SortedKeys(s)| == |s| && Increasing(SortedKeys(s))
    ensures forall k :: k in SortedKeys(s) <==> k in s
    decreases |s|
  {
    if s != {} {
      MinExists(s);
      var m :| IsMin(m, s);
      SortedKeysStep(s, m);
      var rest := SortedKeys(s - {m});
      SortedKeysSpec(s - {m});
      assert |s - {m}| == |s| - 1;
      PrependMin(s, m, rest);
    }
  }

  /** The minimum of a set, put before the rest listed ascending, lists the whole set ascending. */
  lemma PrependMin(s: set<Int>, m: Int, rest: seq<Int>)
    requires IsMin(m, s) && Increasing(rest)
    requires forall k :: k in rest <==> k in s - {m}
    ensures Increasing([m] + rest)
    ensures forall k :: k in [m] + rest <==> k in s
  {
    var ks := [m] + rest;
    forall i, j | 0 <= i < j < |ks|
      ensures ks[i] < ks[j]
    {
      assert ks[j] == rest[j - 1] && ks[j] in s - {m};
      if i > 0 {
        assert ks[i] == rest[i - 1];
      }
    }
    forall k
      ensures k in ks <==> k in s
    {
      assert k in ks <==> k == m || k in rest;
    }
  }

  /** Iterating the keys: the smallest first, then the rest in order. */
  lemma SortedKeysStep(s: set<Int>, m: Int)
    requires IsMin(m, s)
    ensures SortedKeys(s) == [m] + SortedKeys(s - {m})
  {
  }

  /** Values collected one per key, in the iteration order of all the keys, are the values in key order. */
  lemma ValuesOfVisitedKeys(m: map<Int, DataNodeInfo>, visited: seq<Int>, vs: seq<Option<DataNodeInfo>>)
    requires visited == SortedKeys(m.Keys) && |vs| == |visited|
    requires forall i :: 0 <= i < |visited| ==> visited[i] in m && vs[i] == Some(m[visited[i]])
    ensures vs == ValuesInKeyOrder(m)
  {
  }

  /** The values of a map, in ascending key order. */
  ghost function ValuesInKeyOrder(m: map<Int, DataNodeInfo>): (vs: seq<Option<DataNodeInfo>>)
  {
    var ks := SortedKeys(m.Keys);
    SortedKeysSpec(m.Keys);
    seq(|ks|, i requires 0 <= i < |ks| => Some(m[ks[i]]))
  }

  /** The mutable `TDataNodeLocation` handed to `isOnlineDataNode`; its id gets overwritten. */
  class LocationArgument {
    var dataNodeId: Int
    const endpoints: seq<Endpoint>

    constructor(location: DataNodeLocation)
      ensures dataNodeId == location.dataNodeId && endpoints == location.endpoints
    {
      dataNodeId := location.dataNodeId;
      endpoints := location.endpoints;
    }

    function Value(): (loc: DataNodeLocation)
      reads this
      ensures loc.dataNodeId == dataNodeId && loc.endpoints == endpoints
    {
      DataNodeLocation(dataNodeId, endpoints)
    }
  }

  class NodeInfo {
    /** `max(schemaReplicationFactor, dataReplicationFactor)` of the configuration. */
    const minimumDataNode: Int
    var nextDataNodeId: Int
    var onlineDataNodes: map<Int, DataNodeInfo>
    var drainingDataNodes: set<DataNodeLocation>
    var onlineConfigNodes: set<ConfigNodeLocation>

    /** Every entry is stored under its own location's id. */
    ghost predicate KeyedById()
      reads this
    {
      forall id :: id in onlineDataNodes ==> onlineDataNodes[id].location.dataNodeId == id
    }

    constructor(schemaReplicationFactor: Int, dataReplicationFactor: Int, configNodeList: seq<ConfigNodeLocation>)
      ensures minimumDataNode == if schemaReplicationFactor >= dataReplicationFactor
                                 then schemaReplicationFactor else dataReplicationFactor
      ensures nextDataNodeId == 0 && onlineDataNodes == map[] && drainingDataNodes == {}
      ensures onlineConfigNodes == set c | c in configNodeList
      ensures KeyedById()
    {
      minimumDataNode := if schemaReplicationFactor >= dataReplicationFactor
                         then schemaReplicationFactor else dataReplicationFactor;
      nextDataNodeId := 0;
      onlineDataNodes := map[];
      drainingDataNodes := {};
      onlineConfigNodes := set c | c in configNodeList;
    }

    /** An entry whose location is the argument's endpoints carrying `key`. */
    ghost predicate MatchesAt(key: Int, endpoints: seq<Endpoint>)
      reads this
      requires key in onlineDataNodes
    {
      onlineDataNodes[key].location == DataNodeLocation(key, endpoints)
    }

    /**
     * `isOnlineDataNode`: walk the entries in key order, writing each key into the
     * argument before comparing locations. The argument ends up holding the first
     * matching key, or the last key when nothing matches.
     */
    method IsOnlineDataNode(info: LocationArgument) returns (result: bool)
      modifies info
      ensures result <==> exists k :: k in onlineDataNodes && MatchesAt(k, info.endpoints)
      ensures result ==> info.dataNodeId in onlineDataNodes && onlineDataNodes[info.dataNodeId].location == info.Value()
      ensures result ==> forall k :: k in onlineDataNodes && k < info.dataNodeId ==> !MatchesAt(k, info.endpoints)
      ensures !result && onlineDataNodes != map[] ==>
        info.dataNodeId in onlineDataNodes && forall k :: k in onlineDataNodes ==> k <= info.dataNodeId
      ensures onlineDataNodes == map[] ==> info.dataNodeId == old(info.dataNodeId)
    {
      result := false;
      var remaining := onlineDataNodes.Keys;
      while remaining != {}
        invariant remaining <= onlineDataNodes.Keys
        invariant forall k :: k in onlineDataNodes && k !in remaining ==> !MatchesAt(k, info.endpoints)
        invariant forall k, r :: k in onlineDataNodes && k !in remaining && r in remaining ==> k < r
        invariant remaining != onlineDataNodes.Keys ==>
          info.dataNodeId in onlineDataNodes && info.dataNodeId !in remaining
          && forall k :: k in onlineDataNodes && k !in remaining ==> k <= info.dataNodeId
        invariant remaining == onlineDataNodes.Keys ==> info.dataNodeId == old(info.dataNodeId)
        decreases |remaining|
      {
        MinExists(remaining);
        var key :| IsMin(key, remaining);
        info.dataNodeId := key;
        if onlineDataNodes[key].location == info.Value() {
          result := true;
          return;
        }
        remaining := remaining - {key};
      }
    }

    /**
     * With every entry under its own id, `isOnlineDataNode` holds exactly when some
     * registered data node has the argument's endpoints, whatever id it carries.
     */
    lemma OnlineIffEndpointsRegistered(endpoints: seq<Endpoint>)
      requires KeyedById()
      ensures (exists k :: k in onlineDataNodes && MatchesAt(k, endpoints)) <==>
              exists k :: k in onlineDataNodes && onlineDataNodes[k].location.endpoints == endpoints
    {
      if k :| k in onlineDataNodes && onlineDataNodes[k].location.endpoints == endpoints {
        assert MatchesAt(k, endpoints);
      }
    }

    /**
     * `registerDataNode`: store the info under its location's id, catch the counter
     * up by one when it lags behind that id, and report SUCCESS with a message on
     * how far the cluster is from `minimumDataNode`.
     */
    method RegisterDataNode(info: DataNodeInfo) returns (status: TSStatus)
      modifies this
      ensures onlineDataNodes == old(onlineDataNodes)[info.location.dataNodeId := info]
      ensures nextDataNodeId == if old(nextDataNodeId) < info.location.dataNodeId
                                then old(nextDataNodeId) + 1 else old(nextDataNodeId)
      ensures drainingDataNodes == old(drainingDataNodes) && onlineConfigNodes == old(onlineConfigNodes)
      ensures status == TSStatus(SUCCESS_STATUS, RegisterMessage(nextDataNodeId, minimumDataNode))
      ensures old(KeyedById()) ==> KeyedById()
    {
      var id := info.location.dataNodeId;
      onlineDataNodes := onlineDataNodes[id := info];
      if nextDataNodeId < id {
        nextDataNodeId := nextDataNodeId + 1;
      }
      var message: Option<string> := None;
      if nextDataNodeId < minimumDataNode {
        message := Some(REGISTER_MORE_PREFIX + LongToString(Wrap32(minimumDataNode - nextDataNodeId))
                        + REGISTER_MORE_SUFFIX);
      } else if nextDataNodeId == minimumDataNode {
        message := Some(DATA_SERVICE_READY);
      }
      status := TSStatus(SUCCESS_STATUS, message);
    }

    /** `getDataNodeInfo`: every entry for -1, otherwise exactly one, `null` when absent. */
    function GetDataNodeInfo(dataNodeId: Int): (r: map<Int, Option<DataNodeInfo>>)
      reads this
      ensures dataNodeId == -1 ==>
        r.Keys == onlineDataNodes.Keys && forall k :: k in r ==> r[k] == Some(onlineDataNodes[k])
      ensures dataNodeId != -1 ==> r.Keys == {dataNodeId}
      ensures dataNodeId != -1 ==> (r[dataNodeId].Some? <==> dataNodeId in onlineDataNodes)
      ensures dataNodeId != -1 && dataNodeId in onlineDataNodes ==> r[dataNodeId] == Some(onlineDataNodes[dataNodeId])
    {
      if dataNodeId == -1 then map k | k in onlineDataNodes :: Some(onlineDataNodes[k])
      else map[dataNodeId := Lookup(dataNodeId)]
    }

    /** `onlineDataNodes.get(id)`. */
    function Lookup(dataNodeId: Int): (r: Option<DataNodeInfo>)
      reads this
      ensures r.Some? <==> dataNodeId in onlineDataNodes
      ensures r.Some? ==> r.value == onlineDataNodes[dataNodeId]
    {
      if dataNodeId in onlineDataNodes then Some(onlineDataNodes[dataNodeId]) else None
    }

    /** The entries' values in key order. */
    ghost function OnlineInKeyOrder(): seq<Option<DataNodeInfo>>
      reads this
    {
      ValuesInKeyOrder(onlineDataNodes)
    }

    /** `getOnlineDataNodes`: every value in key order for -1, otherwise the one lookup. */
    method GetOnlineDataNodes(dataNodeId: Int) returns (result: seq<Option<DataNodeInfo>>)
      ensures dataNodeId == -1 ==> result == OnlineInKeyOrder()
      ensures dataNodeId != -1 ==> result == [Lookup(dataNodeId)]
    {
      if dataNodeId != -1 {
        return [Lookup(dataNodeId)];
      }
      var m := onlineDataNodes;
      result := [];
      ghost var visited: seq<Int> := [];
      var remaining := m.Keys;
      while remaining != {}
        invariant remaining <= m.Keys
        invariant SortedKeys(m.Keys) == visited + SortedKeys(remaining)
        invariant |result| == |visited|
        invariant forall i :: 0 <= i < |visited| ==> visited[i] in m && result[i] == Some(m[visited[i]])
        decreases |remaining|
      {
        MinExists(remaining);
        var key :| IsMin(key, remaining);
        SortedKeysStep(remaining, key);
        ghost var rest := SortedKeys(remaining - {key});
        assert visited + ([key] + rest) == (visited + [key]) + rest;
        result := result + [Some(m[key])];
        visited := visited + [key];
        remaining := remaining - {key};
      }
      ValuesOfVisitedKeys(m, visited, result);
    }

    /** `getOnlineDataNodes(-1)` lists every data node once, strictly ordered by id, none `null`. */
    lemma OnlineInKeyOrderIsComplete()
      requires KeyedById()
      ensures |OnlineInKeyOrder()| == |onlineDataNodes|
      ensures forall i :: 0 <= i < |OnlineInKeyOrder()| ==> OnlineInKeyOrder()[i].Some?
      ensures forall i, j :: 0 <= i < j < |OnlineInKeyOrder()| ==>
        OnlineInKeyOrder()[i].value.location.dataNodeId < OnlineInKeyOrder()[j].value.location.dataNodeId
      ensures forall k :: k in onlineDataNodes ==> Some(onlineDataNodes[k]) in OnlineInKeyOrder()
    {
      var ks := SortedKeys(onlineDataNodes.Keys);
      SortedKeysSpec(onlineDataNodes.Keys);
      var vs := OnlineInKeyOrder();
      assert |vs| == |ks|;
      assert forall i :: 0 <= i < |ks| ==> vs[i] == Some(onlineDataNodes[ks[i]]);
      forall k | k in onlineDataNodes
        ensures Some(onlineDataNodes[k]) in OnlineInKeyOrder()
      {
        var i :| 0 <= i < |ks| && ks[i] == k;
        assert OnlineInKeyOrder()[i] == Some(onlineDataNodes[k]);
      }
    }

    /** `getOnlineDataNodeCount`. */
    function GetOnlineDataNodeCount(): (r: nat)
      reads this
      ensures r == |onlineDataNodes.Keys|
    {
      |onlineDataNodes|
    }

    /** `generateNextDataNodeId`: hand out the counter, leave it one larger (wrapping at 2^31). */
    method GenerateNextDataNodeId() returns (id: Int)
      modifies this
      ensures id == old(nextDataNodeId)
      ensures nextDataNodeId == Wrap32(old(nextDataNodeId) + 1)
      ensures old(nextDataNodeId) < INT_MAX ==> nextDataNodeId == old(nextDataNodeId) + 1
      ensures onlineDataNodes == old(onlineDataNodes) && drainingDataNodes == old(drainingDataNodes)
      ensures onlineConfigNodes == old(onlineConfigNodes)
    {
      id := nextDataNodeId;
      nextDataNodeId := Wrap32(nextDataNodeId + 1);
    }

    /**
     * The in-memory part of `updateConfigNodeList`. The location is added first and
     * stays added when storing the list fails; `storeFails` is the outcome of
     * `storeConfigNode`.
     */
    method UpdateConfigNodeList(location: ConfigNodeLocation, storeFails: bool) returns (status: TSStatus)
      modifies this
      ensures onlineConfigNodes == old(onlineConfigNodes) + {location}
      ensures status == if storeFails then TSStatus(APPLY_CONFIGNODE_FAILED, Some(APPLY_FAILED_MESSAGE))
                        else TSStatus(SUCCESS_STATUS, None)
      ensures onlineDataNodes == old(onlineDataNodes) && nextDataNodeId == old(nextDataNodeId)
      ensures drainingDataNodes == old(drainingDataNodes)
    {
      onlineConfigNodes := onlineConfigNodes + {location};
      if storeFails {
        status := TSStatus(APPLY_CONFIGNODE_FAILED, Some(APPLY_FAILED_MESSAGE));
      } else {
        status := TSStatus(SUCCESS_STATUS, None);
      }
    }

    /** `clear`. */
    method Clear()
      modifies this
      ensures nextDataNodeId == 0 && onlineDataNodes == map[]
      ensures drainingDataNodes == {} && onlineConfigNodes == {}
      ensures KeyedById()
    {
      nextDataNodeId := 0;
      onlineDataNodes := map[];
      drainingDataNodes := {};
      onlineConfigNodes := {};
    }
  }

  /** Registering a new id adds one data node; re-registering an id replaces its entry. */
  lemma RegisterCount(m: map<Int, DataNodeInfo>, info: DataNodeInfo)
    ensures |m[info.location.dataNodeId := info]| == if info.location.dataNodeId in m then |m| else |m| + 1
  {
    var id := info.location.dataNodeId;
    if id in m {
      assert m[id := info].Keys == m.Keys;
    } else {
      assert m[id := info].Keys == m.Keys + {id};
    }
  }
}
