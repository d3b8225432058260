/**
 * Create-or-update with conflict retry (`CreateOrUpdateWithRetries` in
 * controllers/utils.go, built on controller-runtime's
 * `controllerutil.CreateOrUpdate` and apimachinery's `wait.ExponentialBackoff`),
 * as functions of the stores, with the properties of both.
 */
module Upsert {
  import opened Wrappers
  import opened Bytes
  import opened Kube

  /** `controllerutil.OperationResult`; `Unchanged` is `OperationResultNone`. */
  datatype OperationResult = Unchanged | Created | Updated

  /**
   * The mutate functions the controller passes. None of them can fail.
   * `NoOp` is `func() error { return nil }`; `SetSecret` replaces a secret's
   * labels, data and type, as the ArgoCD cluster secret's mutate function does.
   */
  datatype Mutation =
    | NoOp
    | SetSecret(labels: map<string, string>, data: map<string, seq<byte>>, secretType: string)

  /** The object after the mutate function has run on it. */
  function Mutate(m: Mutation, o: Object): Object
  {
    match m
    case NoOp => o
    case SetSecret(labels, data, secretType) => o.(labels := labels, body := SecretBody(secretType, data))
  }

  /** Every mutate function sets fields to fixed values, so running it twice is running it once. */
  lemma MutateIdempotent(m: Mutation, o: Object)
    ensures Mutate(m, Mutate(m, o)) == Mutate(m, o)
  {
  }

  /** The stores, the in-memory object, the operation result and the error after one attempt. */
  datatype Attempt = Attempt(fleet: Fleet, obj: Object, op: OperationResult, err: Option<Error>)

  /**
   * `controllerutil.CreateOrUpdate(ctx, c, obj, f)`: read the object into `obj`;
   * if it does not exist, mutate `obj` and create it; if it does, mutate it and
   * write it back only when the mutation changed it. Every error path reports
   * `OperationResultNone`.
   */
  function CreateOrUpdate(f: Fleet, c: ClusterId, key: Key, obj: Object, m: Mutation): (r: Attempt)
    ensures r.err.Some? ==> r.op == Unchanged && r.err.value.Api?
  {
    var got := Get(f, c, key);
    match got.result
    case Err(e) =>
      if e != NotFound then Attempt(got.fleet, obj, Unchanged, Some(Api(e)))
      else
        var desired := Mutate(m, obj);
        var created := Create(got.fleet, c, key, desired);
        if created.result.Err? then Attempt(created.fleet, desired, Unchanged, Some(Api(created.result.error)))
        else Attempt(created.fleet, desired, Created, None)
    case Ok(existing) =>
      var desired := Mutate(m, existing);
      if desired == existing then Attempt(got.fleet, desired, Unchanged, None)
      else
        var updated := Update(got.fleet, c, key, desired);
        if updated.result.Err? then Attempt(updated.fleet, desired, Unchanged, Some(Api(updated.result.error)))
        else Attempt(updated.fleet, desired, Updated, None)
  }

  /** `retry.DefaultBackoff.Steps`: the number of attempts the backoff allows. */
  const DefaultBackoffSteps: nat := 4

  /** The stores, the operation result, the error, and how many attempts were made. */
  datatype Outcome = Outcome(fleet: Fleet, op: OperationResult, err: Option<Error>, attempts: nat)

  /**
   * `wait.ExponentialBackoff` running the attempt closure with `steps` attempts
   * left; `last` is the operation result the closure assigned most recently.
   * Success stops with no error, an error other than a conflict stops with that
   * error, a conflict tries again, and running out of steps gives ErrWaitTimeout.
   */
  function Retries(f: Fleet, c: ClusterId, key: Key, obj: Object, m: Mutation, steps: nat, last: OperationResult): (r: Outcome)
    ensures r.attempts <= steps
    ensures r.err != Some(Api(Conflict))
    decreases steps
  {
    if steps == 0 then Outcome(f, last, Some(WaitTimeout), 0)
    else
      var a := CreateOrUpdate(f, c, key, obj, m);
      if a.err.None? then Outcome(a.fleet, a.op, None, 1)
      else if a.err != Some(Api(Conflict)) then Outcome(a.fleet, a.op, a.err, 1)
      else
        var o := Retries(a.fleet, c, key, a.obj, m, steps - 1, a.op);
        o.(attempts := o.attempts + 1)
  }

  /** One step of the retry loop: what follows the first attempt. */
  lemma RetriesStep(f: Fleet, c: ClusterId, key: Key, obj: Object, m: Mutation, steps: nat, last: OperationResult, a: Attempt)
    requires steps > 0 && a == CreateOrUpdate(f, c, key, obj, m)
    ensures var o := Retries(f, c, key, obj, m, steps, last);
      && (a.err != Some(Api(Conflict)) ==> o.fleet == a.fleet && o.op == a.op && o.err == a.err)
      && (a.err == Some(Api(Conflict)) ==>
            var rest := Retries(a.fleet, c, key, a.obj, m, steps - 1, a.op);
            o.fleet == rest.fleet && o.op == rest.op && o.err == rest.err)
  {
  }

  /**
   * The retry loop's step seen from its final outcome `goal`: an attempt that
   * does not conflict is that outcome, and one that conflicts leaves the
   * remaining attempts heading for it.
   */
  lemma RetriesToward(f: Fleet, c: ClusterId, key: Key, obj: Object, m: Mutation, steps: nat, last: OperationResult,
                      g: Fleet, current: Object, op: OperationResult, err: Option<Error>, goal: Outcome)
    requires steps > 0 && Attempt(g, current, op, err) == CreateOrUpdate(f, c, key, obj, m)
    requires Retries(f, c, key, obj, m, steps, last).(attempts := 0) == goal
    ensures err != Some(Api(Conflict)) ==> Outcome(g, op, err, 0) == goal
    ensures err == Some(Api(Conflict)) ==> Retries(g, c, key, current, m, steps - 1, op).(attempts := 0) == goal
  {
    var a := Attempt(g, current, op, err);
    RetriesStep(f, c, key, obj, m, steps, last, a);
  }

  /** `CreateOrUpdateWithRetries`, with the captured operation result starting at its zero value. */
  function CreateOrUpdateWithRetries(f: Fleet, c: ClusterId, key: Key, obj: Object, m: Mutation): Outcome
  {
    Retries(f, c, key, obj, m, DefaultBackoffSteps, Unchanged)
  }

  /** What an upsert that meets no fault leaves behind: the object at `key` after the mutation. */
  function Upserted(f: Fleet, c: ClusterId, key: Key, obj: Object, m: Mutation): Fleet
    requires c in f
  {
    if key in f[c].objects then
      var x := f[c].objects[key];
      if Mutate(m, x) == x then f else Put(f, c, key, Mutate(m, x))
    else Put(f, c, key, Mutate(m, obj))
  }

  /** The operation result an upsert that meets no fault reports. */
  function ExpectedOp(f: Fleet, c: ClusterId, key: Key, m: Mutation): OperationResult
    requires c in f
  {
    if key !in f[c].objects then Created
    else if Mutate(m, f[c].objects[key]) == f[c].objects[key] then Unchanged
    else Updated
  }

  /** The object the mutation is applied to: the stored one if there is one, else the caller's. */
  function Base(f: Fleet, c: ClusterId, key: Key, obj: Object): Object
  {
    if ObjectAt(f, c, key).Some? then ObjectAt(f, c, key).value else obj
  }

  /**
   * One attempt. An absent object is created from the mutated input (Created);
   * a present one that the mutation leaves as it is is not written (Unchanged);
   * a present one that it changes is updated (Updated). A failed attempt
   * reports Unchanged and changes nothing, and no other object ever changes.
   */
  lemma AttemptEffect(f: Fleet, c: ClusterId, key: Key, obj: Object, m: Mutation)
    ensures var a := CreateOrUpdate(f, c, key, obj, m);
      && SameOutside(f, a.fleet, {(c, key)})
      && (a.err.Some? ==> a.op == Unchanged && SameObjects(f, a.fleet))
      && (a.err.None? && ObjectAt(f, c, key).None? ==>
            a.op == Created && ObjectAt(a.fleet, c, key) == Some(Mutate(m, obj)))
      && (a.err.None? && ObjectAt(f, c, key).Some? && Mutate(m, ObjectAt(f, c, key).value) == ObjectAt(f, c, key).value ==>
            a.op == Unchanged && SameObjects(f, a.fleet))
      && (a.err.None? && ObjectAt(f, c, key).Some? && Mutate(m, ObjectAt(f, c, key).value) != ObjectAt(f, c, key).value ==>
            a.op == Updated && ObjectAt(a.fleet, c, key) == Some(Mutate(m, ObjectAt(f, c, key).value)))
      && Mutate(m, Base(a.fleet, c, key, a.obj)) == Mutate(m, Base(f, c, key, obj))
  {
    var got := Get(f, c, key);
    GetEffect(f, c, key);
    if got.result.Err? {
      if got.result.error == NotFound {
        CreateEffect(got.fleet, c, key, Mutate(m, obj));
      }
    } else {
      var desired := Mutate(m, got.result.value);
      MutateIdempotent(m, got.result.value);
      if desired != got.result.value {
        UpdateEffect(got.fleet, c, key, desired);
      }
    }
  }

  /** With no fault to meet, an attempt always succeeds and leaves exactly `Upserted` behind. */
  lemma AttemptWithoutFaults(f: Fleet, c: ClusterId, key: Key, obj: Object, m: Mutation)
    requires NoFaults(f) && c in f
    ensures var a := CreateOrUpdate(f, c, key, obj, m);
      a.err.None? && a.fleet == Upserted(f, c, key, obj, m) && a.op == ExpectedOp(f, c, key, m)
  {
  }

  /**
   * The retry loop as a whole. It makes at least one and at most `steps`
   * attempts; it never reports a conflict (running out of steps gives
   * ErrWaitTimeout, and only after the last allowed attempt); every error
   * reports Unchanged and leaves every object as it was; success leaves the
   * mutation applied to the stored object, or to the caller's when there was
   * none; no object other than the target is ever touched.
   */
  lemma {:induction false} RetriesEffect(f: Fleet, c: ClusterId, key: Key, obj: Object, m: Mutation, steps: nat, last: OperationResult)
    requires steps > 0
    ensures var o := Retries(f, c, key, obj, m, steps, last);
      && 1 <= o.attempts <= steps
      && o.err != Some(Api(Conflict))
      && (o.err == Some(WaitTimeout) ==> o.attempts == steps)
      && SameOutside(f, o.fleet, {(c, key)})
      && (o.err.Some? ==> o.op == Unchanged && SameObjects(f, o.fleet))
      && (o.err.None? ==> ObjectAt(o.fleet, c, key) == Some(Mutate(m, Base(f, c, key, obj))))
    decreases steps
  {
    var a := CreateOrUpdate(f, c, key, obj, m);
    AttemptEffect(f, c, key, obj, m);
    if a.err == Some(Api(Conflict)) && steps > 1 {
      RetriesEffect(a.fleet, c, key, a.obj, m, steps - 1, a.op);
      var o := Retries(a.fleet, c, key, a.obj, m, steps - 1, a.op);
      assert Base(a.fleet, c, key, a.obj) == Base(f, c, key, obj) || Mutate(m, Base(a.fleet, c, key, a.obj)) == Mutate(m, Base(f, c, key, obj));
    }
  }

  /** With no fault to meet, one attempt suffices, and its result is exactly `Upserted`. */
  lemma RetriesWithoutFaults(f: Fleet, c: ClusterId, key: Key, obj: Object, m: Mutation, steps: nat, last: OperationResult)
    requires NoFaults(f) && c in f && steps > 0
    ensures Retries(f, c, key, obj, m, steps, last)
            == Outcome(Upserted(f, c, key, obj, m), ExpectedOp(f, c, key, m), None, 1)
    ensures NoFaults(Upserted(f, c, key, obj, m))
  {
    AttemptWithoutFaults(f, c, key, obj, m);
  }

  /**
   * Conflict resilience: when the first attempt loses a race (a conflict) and
   * nothing else goes wrong afterwards, the second attempt succeeds and the
   * caller sees no error.
   */
  lemma RetriesAfterOneConflict(f: Fleet, c: ClusterId, key: Key, obj: Object, m: Mutation, steps: nat, last: OperationResult)
    requires steps >= 2 && c in f
    requires CreateOrUpdate(f, c, key, obj, m).err == Some(Api(Conflict))
    requires NoFaults(CreateOrUpdate(f, c, key, obj, m).fleet)
    ensures var o := Retries(f, c, key, obj, m, steps, last);
      o.err.None? && o.attempts == 2 && ObjectAt(o.fleet, c, key) == Some(Mutate(m, Base(f, c, key, obj)))
  {
    var a := CreateOrUpdate(f, c, key, obj, m);
    AttemptEffect(f, c, key, obj, m);
    RetriesWithoutFaults(a.fleet, c, key, a.obj, m, steps - 1, a.op);
    RetriesEffect(a.fleet, c, key, a.obj, m, steps - 1, a.op);
  }

  /** Running the same upsert again against what the first left behind writes nothing. */
  lemma RetriesIdempotent(f: Fleet, c: ClusterId, key: Key, obj: Object, m: Mutation, steps: nat, last: OperationResult)
    requires NoFaults(f) && c in f && steps > 0
    ensures var o1 := Retries(f, c, key, obj, m, steps, last);
      var o2 := Retries(o1.fleet, c, key, obj, m, steps, o1.op);
      o2.fleet == o1.fleet && o2.op == Unchanged && o2.err.None?
  {
    var o1 := Retries(f, c, key, obj, m, steps, last);
    RetriesWithoutFaults(f, c, key, obj, m, steps, last);
    RetriesWithoutFaults(o1.fleet, c, key, obj, m, steps, o1.op);
  }

  /** A no-op upsert creates the object if it is missing and otherwise leaves every object as it was. */
  lemma NoOpExtends(f: Fleet, c: ClusterId, key: Key, obj: Object, steps: nat, last: OperationResult)
    requires steps > 0
    ensures var o := Retries(f, c, key, obj, NoOp, steps, last);
      Extends(f, o.fleet) && SameOutside(f, o.fleet, {(c, key)})
  {
    RetriesEffect(f, c, key, obj, NoOp, steps, last);
  }

  /**
   * A no-op mutation never leads to an update: the result is Created when the
   * object had to be created, and Unchanged otherwise.
   */
  lemma {:induction false} NoOpNeverUpdates(f: Fleet, c: ClusterId, key: Key, obj: Object, steps: nat, last: OperationResult)
    requires last != Updated
    ensures Retries(f, c, key, obj, NoOp, steps, last).op != Updated
    decreases steps
  {
    if steps > 0 {
      var a := CreateOrUpdate(f, c, key, obj, NoOp);
      if a.err == Some(Api(Conflict)) {
        NoOpNeverUpdates(a.fleet, c, key, a.obj, steps - 1, a.op);
      }
    }
  }

  /** The retry loop fails only with an API error other than a conflict, or with a timeout. */
  lemma {:induction false} RetriesErrorKinds(f: Fleet, c: ClusterId, key: Key, obj: Object, m: Mutation, steps: nat, last: OperationResult)
    ensures var o := Retries(f, c, key, obj, m, steps, last);
      o.err.Some? ==> (o.err.value.Api? && o.err.value != Api(Conflict)) || o.err.value == WaitTimeout
    decreases steps
  {
    if steps > 0 {
      var a := CreateOrUpdate(f, c, key, obj, m);
      RetriesStep(f, c, key, obj, m, steps, last, a);
      if a.err == Some(Api(Conflict)) {
        RetriesErrorKinds(a.fleet, c, key, a.obj, m, steps - 1, a.op);
      }
    }
  }

  /** Against a cluster that cannot be reached, the first attempt fails and nothing changes. */
  lemma RetriesUnreachable(f: Fleet, c: ClusterId, key: Key, obj: Object, m: Mutation, steps: nat, last: OperationResult)
    ensures c !in f && steps > 0 ==> Retries(f, c, key, obj, m, steps, last) == Outcome(f, Unchanged, Some(Api(Unreachable)), 1)
  {
  }
}
