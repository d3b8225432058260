/**
 * `CreateOrUpdateWithRetries` (controllers/utils.go) as the controller runs it:
 * client calls that update the stores in place, and the backoff loop that
 * repeats the create-or-update while it reports a conflict. Each method is
 * proved to leave exactly the state the functions of module Upsert describe.
 */
module Utils {
  import opened Wrappers
  import opened Kube
  import opened KubeClient
  import Upsert

  /**
   * One run of `controllerutil.CreateOrUpdate`: returns the in-memory object as
   * it stands afterwards, the operation result and the error.
   */
  method CreateOrUpdate(clusters: Clusters, c: ClusterId, key: Key, obj: Object, m: Upsert.Mutation)
    returns (current: Object, op: Upsert.OperationResult, err: Option<Error>)
    modifies clusters
    ensures Upsert.Attempt(clusters.stores, current, op, err) == Upsert.CreateOrUpdate(old(clusters.stores), c, key, obj, m)
  {
    var got := clusters.Get(c, key);
    if got.Err? {
      if got.error != NotFound {
        return obj, Upsert.Unchanged, Some(Api(got.error));
      }
      current := Upsert.Mutate(m, obj);
      var created := clusters.Create(c, key, current);
      if created.Err? {
        return current, Upsert.Unchanged, Some(Api(created.error));
      }
      return current, Upsert.Created, None;
    }
    current := Upsert.Mutate(m, got.value);
    if current == got.value {
      return current, Upsert.Unchanged, None;
    }
    var updated := clusters.Update(c, key, current);
    if updated.Err? {
      return current, Upsert.Unchanged, Some(Api(updated.error));
    }
    return current, Upsert.Updated, None;
  }

  /**
   * One turn of the backoff loop: the create-or-update, seen from the outcome
   * `goal` that this attempt and the `rest` after it lead to.
   */
  method RetryTurn(clusters: Clusters, c: ClusterId, key: Key, obj: Object, m: Upsert.Mutation,
                   rest: nat, last: Upsert.OperationResult, ghost goal: Upsert.Outcome)
    returns (current: Object, op: Upsert.OperationResult, err: Option<Error>)
    requires Upsert.Retries(clusters.stores, c, key, obj, m, rest + 1, last).(attempts := 0) == goal
    modifies clusters
    ensures err != Some(Api(Conflict)) ==> Upsert.Outcome(clusters.stores, op, err, 0) == goal
    ensures err == Some(Api(Conflict)) ==>
      Upsert.Retries(clusters.stores, c, key, current, m, rest, op).(attempts := 0) == goal
  {
    ghost var before := clusters.stores;
    current, op, err := CreateOrUpdate(clusters, c, key, obj, m);
    Upsert.RetriesToward(before, c, key, obj, m, rest + 1, last, clusters.stores, current, op, err, goal);
  }

  /**
   * Repeats the create-or-update, at most `Upsert.DefaultBackoffSteps` times,
   * for as long as it fails with a conflict; the object read by one attempt
   * is what the next one starts from.
   */
  method CreateOrUpdateWithRetries(clusters: Clusters, c: ClusterId, key: Key, obj: Object, m: Upsert.Mutation)
    returns (op: Upsert.OperationResult, err: Option<Error>)
    modifies clusters
    ensures var o := Upsert.CreateOrUpdateWithRetries(old(clusters.stores), c, key, obj, m);
      clusters.stores == o.fleet && op == o.op && err == o.err
  {
    op := Upsert.Unchanged;
    var current := obj;
    var steps := Upsert.DefaultBackoffSteps;
    ghost var goal := Upsert.Retries(clusters.stores, c, key, current, m, steps, op).(attempts := 0);
    while steps > 0
      invariant Upsert.Retries(clusters.stores, c, key, current, m, steps, op).(attempts := 0) == goal
      decreases steps
    {
      steps := steps - 1;
      var e;
      current, op, e := RetryTurn(clusters, c, key, current, m, steps, op, goal);
      if e.None? {
        return op, None;
      }
      if e != Some(Api(Conflict)) {
        return op, e;
      }
    }
    err := Some(WaitTimeout);
  }
}
