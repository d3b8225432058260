/**
 * Properties of bootstrapping the controller's identity on a cluster
 * (setupClusterConfig in controllers/hyperops_controller.go).
 */
module SetupProperties {
  import opened Wrappers
  import opened Kube
  import opened HyperOps
  import Upsert
  import Base64Url

  /** The places bootstrapping may write on cluster `c`: the service account, the binding and the token secret. */
  function Identity(c: ClusterId): set<(ClusterId, Key)>
  {
    {(c, ServiceAccountKey), (c, BindingKey), (c, TokenSecretKey)}
  }

  /** The token secret on cluster `c`, or an empty one when there is none. */
  function TokenSecret(g: Fleet, c: ClusterId): Object
  {
    Upsert.Base(g, c, TokenSecretKey, TokenSecretObject)
  }

  /** Cluster `c` holds the identity, and its token secret carries a token and a CA. */
  ghost predicate Bootstrapped(g: Fleet, c: ClusterId)
  {
    && ObjectAt(g, c, ServiceAccountKey).Some?
    && ObjectAt(g, c, BindingKey).Some?
    && ObjectAt(g, c, TokenSecretKey).Some?
    && |DataOf(TokenSecret(g, c), "token")| > 0
    && |DataOf(TokenSecret(g, c), "ca.crt")| > 0
  }

  /** One no-op upsert of the identity on `c` from `f` to `g`. */
  lemma IdentityStep(f: Fleet, c: ClusterId, key: Key, obj: Object)
    requires (c, key) in Identity(c)
    ensures var o := Upsert.CreateOrUpdateWithRetries(f, c, key, obj, Upsert.NoOp);
      && Extends(f, o.fleet) && SameOutside(f, o.fleet, Identity(c))
      && (o.err.None? ==> ObjectAt(o.fleet, c, key).Some?)
      && (o.err.Some? ==> SameObjects(f, o.fleet))
  {
    Upsert.NoOpExtends(f, c, key, obj, Upsert.DefaultBackoffSteps, Upsert.Unchanged);
    Upsert.RetriesEffect(f, c, key, obj, Upsert.NoOp, Upsert.DefaultBackoffSteps, Upsert.Unchanged);
    SameOutsideWiden(f, Upsert.CreateOrUpdateWithRetries(f, c, key, obj, Upsert.NoOp).fleet, {(c, key)}, Identity(c));
  }

  /**
   * The identity upserts write nothing but the service account, the binding
   * and the token secret, and never change one that exists; when they succeed,
   * all three are present.
   */
  lemma EnsureIdentityEffect(f: Fleet, c: ClusterId)
    ensures var w := EnsureIdentity(f, c);
      && Extends(f, w.fleet) && SameOutside(f, w.fleet, Identity(c))
      && (w.err.None? ==>
            ObjectAt(w.fleet, c, ServiceAccountKey).Some? && ObjectAt(w.fleet, c, BindingKey).Some?
            && ObjectAt(w.fleet, c, TokenSecretKey).Some?)
  {
    var sa := Upsert.CreateOrUpdateWithRetries(f, c, ServiceAccountKey, ServiceAccountObject, Upsert.NoOp);
    IdentityStep(f, c, ServiceAccountKey, ServiceAccountObject);
    if sa.err.None? {
      var crb := Upsert.CreateOrUpdateWithRetries(sa.fleet, c, BindingKey, BindingObject, Upsert.NoOp);
      IdentityStep(sa.fleet, c, BindingKey, BindingObject);
      ExtendsTrans(f, sa.fleet, crb.fleet);
      SameOutsideTrans(f, sa.fleet, crb.fleet, Identity(c), Identity(c));
      if crb.err.None? {
        var tok := Upsert.CreateOrUpdateWithRetries(crb.fleet, c, TokenSecretKey, TokenSecretObject, Upsert.NoOp);
        IdentityStep(crb.fleet, c, TokenSecretKey, TokenSecretObject);
        ExtendsTrans(f, crb.fleet, tok.fleet);
        ExtendsTrans(sa.fleet, crb.fleet, tok.fleet);
        SameOutsideTrans(f, crb.fleet, tok.fleet, Identity(c), Identity(c));
      }
    }
  }

  /**
   * Bootstrapping writes nothing but the service account, the binding and the
   * token secret of the cluster it talks to, and never changes one that exists:
   * every mutation it applies is the no-op.
   */
  lemma SetupFrame(f: Fleet, c: ClusterId, server: string, name: string)
    ensures var s := SetupClusterConfig(f, c, server, name);
      Extends(f, s.fleet) && SameOutside(f, s.fleet, Identity(c))
  {
    var id := EnsureIdentity(f, c);
    EnsureIdentityEffect(f, c);
    if id.err.None? {
      DescribeClusterEffect(id.fleet, c, server, name);
      ExtendsThenSame(f, id.fleet, DescribeCluster(id.fleet, c, server, name).fleet, Identity(c));
    }
  }

  /**
   * Bootstrapping stops at the first failed step: a failed service-account
   * upsert leaves every object as it was, and a failed binding upsert leaves
   * the binding and the token secret as they were.
   */
  lemma SetupStopsAtFirstError(f: Fleet, c: ClusterId, server: string, name: string)
    ensures var s := SetupClusterConfig(f, c, server, name);
      var sa := Upsert.CreateOrUpdateWithRetries(f, c, ServiceAccountKey, ServiceAccountObject, Upsert.NoOp);
      var crb := Upsert.CreateOrUpdateWithRetries(sa.fleet, c, BindingKey, BindingObject, Upsert.NoOp);
      && (sa.err.Some? ==> s.result == Err(sa.err.value) && SameObjects(f, s.fleet))
      && (sa.err.None? && crb.err.Some? ==>
            s.result == Err(crb.err.value)
            && ObjectAt(s.fleet, c, BindingKey) == ObjectAt(f, c, BindingKey)
            && ObjectAt(s.fleet, c, TokenSecretKey) == ObjectAt(f, c, TokenSecretKey))
  {
    var sa := Upsert.CreateOrUpdateWithRetries(f, c, ServiceAccountKey, ServiceAccountObject, Upsert.NoOp);
    IdentityStep(f, c, ServiceAccountKey, ServiceAccountObject);
    if sa.err.None? {
      IdentityStep(sa.fleet, c, BindingKey, BindingObject);
      Upsert.RetriesEffect(f, c, ServiceAccountKey, ServiceAccountObject, Upsert.NoOp, Upsert.DefaultBackoffSteps, Upsert.Unchanged);
    }
  }

  /** The bearer token is the token as read, and the CA data decodes back to the CA as read. */
  lemma CredentialsOf(t: Object)
    ensures Credentials(t).bearerToken == DataOf(t, "token")
    ensures Base64Url.Decode(Credentials(t).caData) == Some(DataOf(t, "ca.crt"))
  {
    Base64Url.DecodeEncode(DataOf(t, "ca.crt"));
  }

  /**
   * Reading the token secret back changes no object; the description uses
   * exactly the secret's credentials, and each failure names what is missing.
   */
  lemma DescribeClusterEffect(f: Fleet, c: ClusterId, server: string, name: string)
    ensures var d := DescribeCluster(f, c, server, name);
      && SameObjects(f, d.fleet)
      && (d.result.Ok? ==>
            ObjectAt(f, c, TokenSecretKey).Some?
            && |DataOf(TokenSecret(f, c), "token")| > 0 && |DataOf(TokenSecret(f, c), "ca.crt")| > 0
            && d.result.value == Cluster(name, server, Credentials(TokenSecret(f, c))))
      && (d.result == Err(TokenNotFound) ==>
            ObjectAt(f, c, TokenSecretKey).Some? && |DataOf(TokenSecret(f, c), "token")| == 0)
      && (d.result == Err(CaCertNotFound) ==>
            ObjectAt(f, c, TokenSecretKey).Some?
            && |DataOf(TokenSecret(f, c), "token")| > 0 && |DataOf(TokenSecret(f, c), "ca.crt")| == 0)
  {
    GetEffect(f, c, TokenSecretKey);
  }

  /**
   * A successful bootstrap leaves the identity in place, with a token secret
   * that has a token and a CA, and describes the cluster with exactly the
   * credentials of that secret.
   */
  lemma SetupSucceeds(f: Fleet, c: ClusterId, server: string, name: string)
    ensures var s := SetupClusterConfig(f, c, server, name);
      s.result.Ok? ==>
        && Bootstrapped(s.fleet, c)
        && s.result.value == Cluster(name, server, Credentials(TokenSecret(s.fleet, c)))
        && s.result.value.config.bearerToken == DataOf(TokenSecret(s.fleet, c), "token")
        && Base64Url.Decode(s.result.value.config.caData) == Some(DataOf(TokenSecret(s.fleet, c), "ca.crt"))
  {
    var id := EnsureIdentity(f, c);
    EnsureIdentityEffect(f, c);
    if id.err.None? {
      var d := DescribeCluster(id.fleet, c, server, name);
      DescribeClusterEffect(id.fleet, c, server, name);
      assert TokenSecret(d.fleet, c) == TokenSecret(id.fleet, c);
      if d.result.Ok? {
        CredentialsOf(TokenSecret(d.fleet, c));
      }
    }
  }

  /**
   * The two ways a bootstrap fails after the identity is in place: the token
   * secret read back has no token, or it has a token but no CA.
   */
  lemma SetupMissingCredentials(f: Fleet, c: ClusterId, server: string, name: string)
    ensures var s := SetupClusterConfig(f, c, server, name);
      && (s.result == Err(TokenNotFound) ==>
            ObjectAt(s.fleet, c, TokenSecretKey).Some? && |DataOf(TokenSecret(s.fleet, c), "token")| == 0)
      && (s.result == Err(CaCertNotFound) ==>
            ObjectAt(s.fleet, c, TokenSecretKey).Some?
            && |DataOf(TokenSecret(s.fleet, c), "token")| > 0 && |DataOf(TokenSecret(s.fleet, c), "ca.crt")| == 0)
  {
    var id := EnsureIdentity(f, c);
    if id.err.None? {
      var d := DescribeCluster(id.fleet, c, server, name);
      DescribeClusterEffect(id.fleet, c, server, name);
      assert TokenSecret(d.fleet, c) == TokenSecret(id.fleet, c);
    } else {
      assert id.err != Some(TokenNotFound) && id.err != Some(CaCertNotFound) by {
        IdentityErrors(f, c);
      }
    }
  }

  /** The identity upserts fail only with API errors or a timeout. */
  lemma IdentityErrors(f: Fleet, c: ClusterId)
    ensures var w := EnsureIdentity(f, c);
      w.err.Some? ==> w.err.value.Api? || w.err.value == WaitTimeout
  {
    Upsert.RetriesErrorKinds(f, c, ServiceAccountKey, ServiceAccountObject, Upsert.NoOp, Upsert.DefaultBackoffSteps, Upsert.Unchanged);
    var sa := Upsert.CreateOrUpdateWithRetries(f, c, ServiceAccountKey, ServiceAccountObject, Upsert.NoOp);
    Upsert.RetriesErrorKinds(sa.fleet, c, BindingKey, BindingObject, Upsert.NoOp, Upsert.DefaultBackoffSteps, Upsert.Unchanged);
    var crb := Upsert.CreateOrUpdateWithRetries(sa.fleet, c, BindingKey, BindingObject, Upsert.NoOp);
    Upsert.RetriesErrorKinds(crb.fleet, c, TokenSecretKey, TokenSecretObject, Upsert.NoOp, Upsert.DefaultBackoffSteps, Upsert.Unchanged);
  }

  /**
   * With no fault to meet, the outcome is decided by the token secret found
   * before the bootstrap (an empty one when there is none): no token gives
   * "token not found", a token but no CA gives "ca.crt not found", and
   * otherwise the cluster is described with that secret's credentials.
   */
  lemma SetupWithoutFaults(f: Fleet, c: ClusterId, server: string, name: string)
    requires NoFaults(f) && c in f
    ensures var s := SetupClusterConfig(f, c, server, name);
      var t := TokenSecret(f, c);
      && NoFaults(s.fleet)
      && (s.result == Err(TokenNotFound) <==> |DataOf(t, "token")| == 0)
      && (s.result == Err(CaCertNotFound) <==> |DataOf(t, "token")| > 0 && |DataOf(t, "ca.crt")| == 0)
      && (s.result.Ok? <==> |DataOf(t, "token")| > 0 && |DataOf(t, "ca.crt")| > 0)
      && (s.result.Ok? ==> s.result.value == Cluster(name, server, Credentials(t)))
  {
    var sa := Upsert.CreateOrUpdateWithRetries(f, c, ServiceAccountKey, ServiceAccountObject, Upsert.NoOp);
    Upsert.RetriesWithoutFaults(f, c, ServiceAccountKey, ServiceAccountObject, Upsert.NoOp, Upsert.DefaultBackoffSteps, Upsert.Unchanged);
    IdentityStep(f, c, ServiceAccountKey, ServiceAccountObject);
    var crb := Upsert.CreateOrUpdateWithRetries(sa.fleet, c, BindingKey, BindingObject, Upsert.NoOp);
    Upsert.RetriesWithoutFaults(sa.fleet, c, BindingKey, BindingObject, Upsert.NoOp, Upsert.DefaultBackoffSteps, Upsert.Unchanged);
    IdentityStep(sa.fleet, c, BindingKey, BindingObject);
    var tok := Upsert.CreateOrUpdateWithRetries(crb.fleet, c, TokenSecretKey, TokenSecretObject, Upsert.NoOp);
    Upsert.RetriesWithoutFaults(crb.fleet, c, TokenSecretKey, TokenSecretObject, Upsert.NoOp, Upsert.DefaultBackoffSteps, Upsert.Unchanged);
    Upsert.RetriesEffect(crb.fleet, c, TokenSecretKey, TokenSecretObject, Upsert.NoOp, Upsert.DefaultBackoffSteps, Upsert.Unchanged);
    assert ObjectAt(crb.fleet, c, TokenSecretKey) == ObjectAt(f, c, TokenSecretKey);
    assert ObjectAt(tok.fleet, c, TokenSecretKey) == Some(TokenSecret(f, c));
    GetEffect(tok.fleet, c, TokenSecretKey);
  }

  /**
   * Bootstrapping a cluster that is already bootstrapped, with no fault to
   * meet, writes nothing: every upsert reports Unchanged, the stores stay as
   * they are, and the cluster is described with the credentials already there.
   */
  lemma SetupSettled(g: Fleet, c: ClusterId, server: string, name: string)
    requires NoFaults(g) && c in g && Bootstrapped(g, c)
    ensures Upsert.CreateOrUpdateWithRetries(g, c, ServiceAccountKey, ServiceAccountObject, Upsert.NoOp) == Upsert.Outcome(g, Upsert.Unchanged, None, 1)
    ensures Upsert.CreateOrUpdateWithRetries(g, c, BindingKey, BindingObject, Upsert.NoOp) == Upsert.Outcome(g, Upsert.Unchanged, None, 1)
    ensures Upsert.CreateOrUpdateWithRetries(g, c, TokenSecretKey, TokenSecretObject, Upsert.NoOp) == Upsert.Outcome(g, Upsert.Unchanged, None, 1)
    ensures SetupClusterConfig(g, c, server, name) == Setup(g, Ok(Cluster(name, server, Credentials(TokenSecret(g, c)))))
  {
    Upsert.RetriesWithoutFaults(g, c, ServiceAccountKey, ServiceAccountObject, Upsert.NoOp, Upsert.DefaultBackoffSteps, Upsert.Unchanged);
    Upsert.RetriesWithoutFaults(g, c, BindingKey, BindingObject, Upsert.NoOp, Upsert.DefaultBackoffSteps, Upsert.Unchanged);
    Upsert.RetriesWithoutFaults(g, c, TokenSecretKey, TokenSecretObject, Upsert.NoOp, Upsert.DefaultBackoffSteps, Upsert.Unchanged);
  }

  /** Bootstrapping never updates an object: each of its upserts reports Created or Unchanged. */
  lemma SetupNeverUpdates(f: Fleet, c: ClusterId, key: Key, obj: Object)
    ensures Upsert.CreateOrUpdateWithRetries(f, c, key, obj, Upsert.NoOp).op != Upsert.Updated
  {
    Upsert.NoOpNeverUpdates(f, c, key, obj, Upsert.DefaultBackoffSteps, Upsert.Unchanged);
  }

  /** Bootstrapping through a client whose cluster cannot be reached fails at once and changes nothing. */
  lemma SetupUnreachable(f: Fleet, c: ClusterId, server: string, name: string)
    requires c !in f
    ensures SetupClusterConfig(f, c, server, name) == Setup(f, Err(Api(Unreachable)))
  {
    Upsert.RetriesUnreachable(f, c, ServiceAccountKey, ServiceAccountObject, Upsert.NoOp, Upsert.DefaultBackoffSteps, Upsert.Unchanged);
  }
}
