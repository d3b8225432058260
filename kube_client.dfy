/** The controller's view of the API servers: the stores, updated in place by each client call. */
module KubeClient {
  import opened Wrappers
  import opened Kube

  class Clusters {
    /** The store of every reachable cluster. */
    var stores: Fleet

    constructor(stores: Fleet)
      ensures this.stores == stores
    {
      this.stores := stores;
    }

    method Get(c: ClusterId, key: Key) returns (r: Result<Object, ApiError>)
      modifies this
      ensures var reply := Kube.Get(old(stores), c, key); stores == reply.fleet && r == reply.result
    {
      var reply := Kube.Get(stores, c, key);
      stores, r := reply.fleet, reply.result;
    }

    method Create(c: ClusterId, key: Key, o: Object) returns (r: Result<(), ApiError>)
      modifies this
      ensures var reply := Kube.Create(old(stores), c, key, o); stores == reply.fleet && r == reply.result
    {
      var reply := Kube.Create(stores, c, key, o);
      stores, r := reply.fleet, reply.result;
    }

    method Update(c: ClusterId, key: Key, o: Object) returns (r: Result<(), ApiError>)
      modifies this
      ensures var reply := Kube.Update(old(stores), c, key, o); stores == reply.fleet && r == reply.result
    {
      var reply := Kube.Update(stores, c, key, o);
      stores, r := reply.fleet, reply.result;
    }

    method Delete(c: ClusterId, key: Key) returns (r: Result<(), ApiError>)
      modifies this
      ensures var reply := Kube.Delete(old(stores), c, key); stores == reply.fleet && r == reply.result
    {
      var reply := Kube.Delete(stores, c, key);
      stores, r := reply.fleet, reply.result;
    }
  }
}
