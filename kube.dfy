/**
 * An abstract, in-memory Kubernetes API: objects keyed by kind, namespace and
 * name, one store per cluster, and the four client calls the controller makes
 * (Get, Create, Update, Delete) as functions of the stores.
 *
 * Each store carries a script of outcomes to inject: every call against the
 * store consumes the next entry, and an entry `Some(e)` makes that call fail
 * with `e` and change nothing. This stands for the failures the real API server
 * reports on its own (a stale resource version, a server error, a missing
 * permission). A scripted conflict has no writer behind it: no other client
 * ever changes a store, so a retry re-reads what the failed attempt saw.
 * When the script is empty every call behaves normally.
 */
module Kube {
  import opened Wrappers
  import opened Bytes

  /** The object kinds the controller reads or writes. */
  datatype Kind = HostedClusterKind | SecretKind | ServiceAccountKind | ClusterRoleBindingKind

  /** `client.ObjectKey` together with the kind; cluster-scoped objects have namespace "". */
  datatype Key = Key(kind: Kind, namespace: string, name: string)

  datatype Subject = Subject(kind: string, name: string, namespace: string)

  datatype RoleRef = RoleRef(kind: string, name: string, apiGroup: string)

  /** The kind-specific part of an object, as far as the controller looks at it. */
  datatype Body =
    | HostedClusterBody
    | SecretBody(secretType: string, data: map<string, seq<byte>>)
    | ServiceAccountBody
    | ClusterRoleBindingBody(subjects: seq<Subject>, roleRef: RoleRef)

  /** An object: metadata labels, annotations, the deletion marker, and its body. */
  datatype Object = Object(labels: map<string, string>, annotations: map<string, string>, deleting: bool, body: Body)

  /** `secret.Data[field]`; a missing field, like a non-secret object, reads as no bytes (Go's nil slice). */
  function DataOf(o: Object, field: string): seq<byte>
  {
    if o.body.SecretBody? && field in o.body.data then o.body.data[field] else []
  }

  /** The errors an API call can return. */
  datatype ApiError =
    | NotFound
    | AlreadyExists
    | Conflict
    | Unreachable        // the client's cluster cannot be reached
    | ServerError(message: string)

  /** Every error the controller can return. */
  datatype Error =
    | Api(api: ApiError)
    | WaitTimeout                // wait.ErrWaitTimeout: the retry budget ran out
    | TokenNotFound              // the service-account token secret has no "token" data
    | CaCertNotFound             // ... or no "ca.crt" data
    | ClientError(message: string)      // building a client from a kubeconfig failed
    | KubeconfigError(message: string)  // the kubeconfig did not parse
    | NoClusterEntry             // the kubeconfig lists no cluster (the source indexes Clusters[0])
    | NilLabels                  // the HostedCluster has no labels (the source assigns into its nil label map)

  /** client.IgnoreNotFound. */
  function IgnoreNotFound(e: ApiError): Option<Error>
  {
    if e == NotFound then None else Some(Api(e))
  }

  /** The objects of one cluster and the outcomes still to be injected into calls against it. */
  datatype Store = Store(objects: map<Key, Object>, faults: seq<Option<ApiError>>)

  /** A client is identified with the cluster it talks to. */
  type ClusterId = string

  /** The stores of every cluster the controller can reach. */
  type Fleet = map<ClusterId, Store>

  /** The new stores and the answer of one call. */
  datatype Reply<T> = Reply(fleet: Fleet, result: Result<T, ApiError>)

  /** The object of cluster `c` at `key`, if any. */
  function ObjectAt(f: Fleet, c: ClusterId, key: Key): Option<Object>
  {
    if c in f && key in f[c].objects then Some(f[c].objects[key]) else None
  }

  /** No store has an outcome left to inject. */
  predicate NoFaults(f: Fleet)
  {
    forall c :: c in f ==> f[c].faults == []
  }

  /** Every cluster holds the same objects in both. */
  ghost predicate SameObjects(f: Fleet, g: Fleet)
  {
    f.Keys == g.Keys && forall c, key :: ObjectAt(f, c, key) == ObjectAt(g, c, key)
  }

  /** The two agree on every object except possibly those at the `touched` places. */
  ghost predicate SameOutside(f: Fleet, g: Fleet, touched: set<(ClusterId, Key)>)
  {
    f.Keys == g.Keys && forall c, key :: (c, key) !in touched ==> ObjectAt(f, c, key) == ObjectAt(g, c, key)
  }

  /** No object present in `f` is changed or removed in `g`; absent ones may have been added. */
  ghost predicate Extends(f: Fleet, g: Fleet)
  {
    f.Keys == g.Keys && forall c, key :: ObjectAt(f, c, key).Some? ==> ObjectAt(g, c, key) == ObjectAt(f, c, key)
  }

  lemma ExtendsTrans(f: Fleet, g: Fleet, h: Fleet)
    requires Extends(f, g) && Extends(g, h)
    ensures Extends(f, h)
  {
  }

  lemma SameOutsideTrans(f: Fleet, g: Fleet, h: Fleet, a: set<(ClusterId, Key)>, b: set<(ClusterId, Key)>)
    requires SameOutside(f, g, a) && SameOutside(g, h, b)
    ensures SameOutside(f, h, a + b)
  {
  }

  lemma SameOutsideWiden(f: Fleet, g: Fleet, a: set<(ClusterId, Key)>, b: set<(ClusterId, Key)>)
    requires SameOutside(f, g, a) && a <= b
    ensures SameOutside(f, g, b)
  {
  }

  lemma Untouched(f: Fleet, g: Fleet, touched: set<(ClusterId, Key)>, c: ClusterId, key: Key)
    requires SameOutside(f, g, touched) && (c, key) !in touched
    ensures ObjectAt(g, c, key) == ObjectAt(f, c, key)
  {
  }

  lemma ExtendsThenSame(f: Fleet, g: Fleet, h: Fleet, a: set<(ClusterId, Key)>)
    requires Extends(f, g) && SameOutside(f, g, a) && SameObjects(g, h)
    ensures Extends(f, h) && SameOutside(f, h, a)
  {
  }

  /** Store `c` with `key` set to `o`. */
  function Put(f: Fleet, c: ClusterId, key: Key, o: Object): Fleet
    requires c in f
  {
    f[c := f[c].(objects := f[c].objects[key := o])]
  }

  /** Consumes the next scripted outcome of a store. */
  function Next(s: Store): (Option<ApiError>, Store)
  {
    if s.faults == [] then (None, s) else (s.faults[0], s.(faults := s.faults[1..]))
  }

  /** `client.Get`. */
  function Get(f: Fleet, c: ClusterId, key: Key): Reply<Object>
  {
    if c !in f then Reply(f, Err(Unreachable))
    else
      var (fault, s) := Next(f[c]);
      var f' := f[c := s];
      if fault.Some? then Reply(f', Err(fault.value))
      else if key in s.objects then Reply(f', Ok(s.objects[key]))
      else Reply(f', Err(NotFound))
  }

  /** `client.Create`: fails with AlreadyExists when the key is taken. */
  function Create(f: Fleet, c: ClusterId, key: Key, o: Object): Reply<()>
  {
    if c !in f then Reply(f, Err(Unreachable))
    else
      var (fault, s) := Next(f[c]);
      var f' := f[c := s];
      if fault.Some? then Reply(f', Err(fault.value))
      else if key in s.objects then Reply(f', Err(AlreadyExists))
      else Reply(Put(f', c, key, o), Ok(()))
  }

  /** `client.Update`: fails with NotFound when there is nothing to update. */
  function Update(f: Fleet, c: ClusterId, key: Key, o: Object): Reply<()>
  {
    if c !in f then Reply(f, Err(Unreachable))
    else
      var (fault, s) := Next(f[c]);
      var f' := f[c := s];
      if fault.Some? then Reply(f', Err(fault.value))
      else if key !in s.objects then Reply(f', Err(NotFound))
      else Reply(Put(f', c, key, o), Ok(()))
  }

  /** `client.Delete`: fails with NotFound when there is nothing to delete. */
  function Delete(f: Fleet, c: ClusterId, key: Key): Reply<()>
  {
    if c !in f then Reply(f, Err(Unreachable))
    else
      var (fault, s) := Next(f[c]);
      var f' := f[c := s];
      if fault.Some? then Reply(f', Err(fault.value))
      else if key !in s.objects then Reply(f', Err(NotFound))
      else Reply(f'[c := s.(objects := s.objects - {key})], Ok(()))
  }

  /**
   * A read changes no object and returns what is stored (an unreachable cluster answers
   * Unreachable); with no fault the answer is exact.
   */
  lemma GetEffect(f: Fleet, c: ClusterId, key: Key)
    ensures var r := Get(f, c, key);
      && (c !in f ==> r.fleet == f && r.result == Err(Unreachable))
      && SameObjects(f, r.fleet)
      && (r.result.Ok? ==> ObjectAt(f, c, key) == Some(r.result.value))
      && (NoFaults(f) && c in f ==>
          r.fleet == f && r.result == (if key in f[c].objects then Ok(f[c].objects[key]) else Err(NotFound)))
  {
  }

  /**
   * A create stores the object at a free key and touches nothing else (an unreachable cluster answers
   * Unreachable); with no fault the answer is exact.
   */
  lemma CreateEffect(f: Fleet, c: ClusterId, key: Key, o: Object)
    ensures var r := Create(f, c, key, o);
      && (c !in f ==> r.fleet == f && r.result == Err(Unreachable))
      && (r.result.Ok? ==> ObjectAt(f, c, key).None? && ObjectAt(r.fleet, c, key) == Some(o))
      && (r.result.Ok? ==> SameOutside(f, r.fleet, {(c, key)}))
      && (r.result.Err? ==> SameObjects(f, r.fleet))
      && (NoFaults(f) && c in f ==>
          r == if key in f[c].objects then Reply(f, Err(AlreadyExists)) else Reply(Put(f, c, key, o), Ok(())))
  {
  }

  /**
   * An update replaces an existing object and touches nothing else (an unreachable cluster answers
   * Unreachable); with no fault the answer is exact.
   */
  lemma UpdateEffect(f: Fleet, c: ClusterId, key: Key, o: Object)
    ensures var r := Update(f, c, key, o);
      && (c !in f ==> r.fleet == f && r.result == Err(Unreachable))
      && (r.result.Ok? ==> ObjectAt(f, c, key).Some? && ObjectAt(r.fleet, c, key) == Some(o))
      && (r.result.Ok? ==> SameOutside(f, r.fleet, {(c, key)}))
      && (r.result.Err? ==> SameObjects(f, r.fleet))
      && (NoFaults(f) && c in f ==>
          r == if key in f[c].objects then Reply(Put(f, c, key, o), Ok(())) else Reply(f, Err(NotFound)))
  {
  }

  /**
   * A delete removes an existing object and touches nothing else (an unreachable cluster answers
   * Unreachable); with no fault the answer is exact.
   */
  lemma DeleteEffect(f: Fleet, c: ClusterId, key: Key)
    ensures var r := Delete(f, c, key);
      && (c !in f ==> r.fleet == f && r.result == Err(Unreachable))
      && (r.result.Ok? ==> ObjectAt(f, c, key).Some? && ObjectAt(r.fleet, c, key).None?)
      && (r.result.Ok? ==> SameOutside(f, r.fleet, {(c, key)}))
      && (r.result.Err? ==> SameObjects(f, r.fleet))
      && (NoFaults(f) && c in f ==>
          r == if key in f[c].objects then Reply(f[c := f[c].(objects := f[c].objects - {key})], Ok(()))
          else Reply(f, Err(NotFound)))
  {
  }
}
