/**
 * Reconciling is idempotent: when nothing goes wrong, reconciling the same
 * HostedCluster again right after a successful reconcile writes nothing and
 * reports the same outcome, because every upsert finds its object as its
 * mutation would leave it.
 */
module ReconcileIdempotence {
  import opened Wrappers
  import opened Kube
  import opened HyperOps
  import opened SetupProperties
  import opened ClusterSecretProperties
  import opened ReconcileProperties

  /**
   * Cluster `c` is bootstrapped, and the ArgoCD secret on `owner` in `ns`
   * describes it as `name` at `server` with the credentials found on it.
   */
  ghost predicate InPlace(g: Fleet, c: ClusterId, owner: ClusterId, ns: string, labels: map<string, string>,
                          name: string, server: string)
  {
    Bootstrapped(g, c) && Registered(g, owner, ns, labels, Cluster(name, server, Credentials(TokenSecret(g, c))))
  }

  /** The local cluster is bootstrapped and its ArgoCD secret in `ns` describes it. */
  ghost predicate LocalInPlace(g: Fleet, ns: string, local: ClusterId)
  {
    InPlace(g, local, local, ns, LocalLabels, LocalClusterName, LocalServer)
  }

  /**
   * Either there is no kubeconfig secret, or the hosted cluster it leads to is
   * bootstrapped and its ArgoCD secret in `ns` describes it with the
   * credentials found on it; the HostedCluster then has labels, since one
   * without labels is never registered.
   */
  ghost predicate HostedInPlace(g: Fleet, ns: string, local: ClusterId, req: Request, labels: map<string, string>,
                                clientFor: ClientFactory, parse: KubeconfigParser)
  {
    var kc := ObjectAt(g, local, KubeconfigSecretKey(req));
    kc.Some? ==>
      var kubeconfig := DataOf(kc.value, "kubeconfig");
      var hosted := clientFor(kubeconfig);
      var server := ServerFromKubeconfig(parse(kubeconfig));
      && hosted.Ok? && hosted.value in g && server.Ok? && labels != map[]
      && InPlace(g, hosted.value, local, ns, HostedLabels(labels), req.name, server.value)
  }

  /** Registering a local cluster that is already in place writes nothing. */
  lemma LocalSettled(g: Fleet, ns: string, local: ClusterId)
    requires NoFaults(g) && local in g && LocalInPlace(g, ns, local)
    ensures RegisterLocal(g, ns, local) == Written(g, None)
  {
    SetupSettled(g, local, LocalServer, LocalClusterName);
    ClusterSecretSettled(g, local, ns, LocalLabels, LocalCluster(g, local));
  }

  /** Registering a hosted cluster that is already in place writes nothing. */
  lemma HostedSettled(g: Fleet, ns: string, local: ClusterId, req: Request, labels: map<string, string>,
                      clientFor: ClientFactory, parse: KubeconfigParser)
    requires NoFaults(g) && local in g && HostedInPlace(g, ns, local, req, labels, clientFor, parse)
    ensures RegisterHosted(g, ns, local, req, labels, clientFor, parse) == Reconciled(g, ns, None)
  {
    var kc := ObjectAt(g, local, KubeconfigSecretKey(req));
    GetEffect(g, local, KubeconfigSecretKey(req));
    if kc.Some? {
      var kubeconfig := DataOf(kc.value, "kubeconfig");
      var hosted := clientFor(kubeconfig).value;
      var server := ServerFromKubeconfig(parse(kubeconfig)).value;
      SetupSettled(g, hosted, server, req.name);
      ClusterSecretSettled(g, local, ns, HostedLabels(labels), Cluster(req.name, server, Credentials(TokenSecret(g, hosted))));
    }
  }

  /** With no fault to meet, a successful local registration leaves the local cluster in place. */
  lemma LocalEstablished(g: Fleet, ns: string, local: ClusterId)
    requires NoFaults(g) && local in g
    ensures var w := RegisterLocal(g, ns, local);
      && NoFaults(w.fleet) && w.fleet.Keys == g.Keys
      && (w.err.None? ==> LocalInPlace(w.fleet, ns, local))
  {
    NamesDistinct("");
    SetupThenSecretWithoutFaults(g, local, ns, LocalLabels, LocalServer, LocalClusterName);
  }

  /**
   * With no fault to meet, bootstrapping cluster `c` and writing the secret of
   * the cluster `name` on it succeed or fail without faults left behind, and
   * success leaves the cluster in place.
   */
  lemma SetupThenSecretWithoutFaults(g: Fleet, c: ClusterId, ns: string, labels: map<string, string>, server: string, name: string)
    requires NoFaults(g) && c in g && name != TokenSecretName
    ensures var s := SetupClusterConfig(g, c, server, name);
      && NoFaults(s.fleet) && s.fleet.Keys == g.Keys
      && (s.result.Ok? ==>
            var w := CreateArgoCDClusterSecret(s.fleet, c, ns, labels, s.result.value);
            && NoFaults(w.fleet) && w.fleet.Keys == g.Keys
            && (w.err.None? ==> InPlace(w.fleet, c, c, ns, labels, name, server)))
  {
    var s := SetupClusterConfig(g, c, server, name);
    SetupWithoutFaults(g, c, server, name);
    SetupFrame(g, c, server, name);
    if s.result.Ok? {
      ClusterSecretWithoutFaults(s.fleet, c, ns, labels, s.result.value);
      SetupThenSecret(g, c, ns, labels, server, name);
    }
  }

  /**
   * With no fault to meet, a successful hosted registration leaves the hosted
   * cluster in place, provided its secret cannot land on the local token secret.
   */
  lemma HostedEstablished(g: Fleet, ns: string, local: ClusterId, req: Request, labels: map<string, string>,
                          clientFor: ClientFactory, parse: KubeconfigParser)
    requires NoFaults(g) && local in g
    requires HostedSecretKey(ns, req) != TokenSecretKey
    ensures var r := RegisterHosted(g, ns, local, req, labels, clientFor, parse);
      && NoFaults(r.fleet) && r.fleet.Keys == g.Keys
      && (r.err.None? ==> HostedInPlace(r.fleet, ns, local, req, labels, clientFor, parse))
  {
    var kc := Get(g, local, KubeconfigSecretKey(req));
    GetEffect(g, local, KubeconfigSecretKey(req));
    if kc.result.Ok? {
      var kubeconfig := DataOf(kc.result.value, "kubeconfig");
      var hosted := clientFor(kubeconfig);
      var server := ServerFromKubeconfig(parse(kubeconfig));
      if hosted.Ok? && server.Ok? {
        HostedWritten(g, ns, local, req, labels, hosted.value, server.value);
        var s := SetupClusterConfig(g, hosted.value, server.value, req.name);
        var r := RegisterHosted(g, ns, local, req, labels, clientFor, parse);
        if s.result.Ok? && labels == map[] {
          assert r == Reconciled(s.fleet, ns, Some(NilLabels));
        } else if s.result.Ok? {
          assert r.fleet == CreateArgoCDClusterSecret(s.fleet, local, ns, HostedLabels(labels), s.result.value).fleet;
        }
      }
    }
  }

  /** The bootstrap and the secret of the hosted cluster `hosted`, once the kubeconfig has been read. */
  lemma HostedWritten(g: Fleet, ns: string, local: ClusterId, req: Request, labels: map<string, string>,
                      hosted: ClusterId, server: string)
    requires NoFaults(g) && local in g
    requires HostedSecretKey(ns, req) != TokenSecretKey
    ensures var s := SetupClusterConfig(g, hosted, server, req.name);
      && NoFaults(s.fleet) && s.fleet.Keys == g.Keys
      && (s.result.Ok? ==>
            var w := CreateArgoCDClusterSecret(s.fleet, local, ns, HostedLabels(labels), s.result.value);
            && NoFaults(w.fleet) && w.fleet.Keys == g.Keys
            && ObjectAt(w.fleet, local, KubeconfigSecretKey(req)) == ObjectAt(g, local, KubeconfigSecretKey(req))
            && (w.err.None? ==>
                  && hosted in w.fleet && Bootstrapped(w.fleet, hosted)
                  && Registered(w.fleet, local, ns, HostedLabels(labels),
                                Cluster(req.name, server, Credentials(TokenSecret(w.fleet, hosted))))))
  {
    var s := SetupClusterConfig(g, hosted, server, req.name);
    if hosted in g {
      SetupWithoutFaults(g, hosted, server, req.name);
    } else {
      SetupUnreachable(g, hosted, server, req.name);
    }
    SetupFrame(g, hosted, server, req.name);
    if s.result.Ok? {
      SetupSucceeds(g, hosted, server, req.name);
      HostedSecretWritten(g, s.fleet, ns, local, req, labels, hosted, s.result.value);
    }
  }

  /** The hosted secret, written after a successful bootstrap of `hosted`. */
  lemma HostedSecretWritten(g: Fleet, s: Fleet, ns: string, local: ClusterId, req: Request, labels: map<string, string>,
                            hosted: ClusterId, cluster: Cluster)
    requires NoFaults(s) && local in s && s.Keys == g.Keys && hosted in s
    requires HostedSecretKey(ns, req) != TokenSecretKey
    requires SameOutside(g, s, Identity(hosted))
    requires Bootstrapped(s, hosted) && cluster.name == req.name && cluster.config == Credentials(TokenSecret(s, hosted))
    ensures var w := CreateArgoCDClusterSecret(s, local, ns, HostedLabels(labels), cluster);
      && NoFaults(w.fleet) && w.fleet.Keys == g.Keys
      && ObjectAt(w.fleet, local, KubeconfigSecretKey(req)) == ObjectAt(g, local, KubeconfigSecretKey(req))
      && (w.err.None? ==>
            && hosted in w.fleet && Bootstrapped(w.fleet, hosted)
            && Registered(w.fleet, local, ns, HostedLabels(labels),
                          Cluster(req.name, cluster.server, Credentials(TokenSecret(w.fleet, hosted)))))
  {
    var w := CreateArgoCDClusterSecret(s, local, ns, HostedLabels(labels), cluster);
    ClusterSecretWithoutFaults(s, local, ns, HostedLabels(labels), cluster);
    ClusterSecretShape(s, local, ns, HostedLabels(labels), cluster);
    SecretKeepsIdentity(s, hosted, local, ns, HostedLabels(labels), cluster);
    KubeconfigKept(g, s, w.fleet, local, hosted, ns, req);
    assert cluster == Cluster(req.name, cluster.server, Credentials(TokenSecret(w.fleet, hosted)));
  }

  /** Neither the bootstrap nor the hosted secret can overwrite the kubeconfig secret. */
  lemma KubeconfigKept(g: Fleet, s: Fleet, w: Fleet, local: ClusterId, hosted: ClusterId, ns: string, req: Request)
    requires SameOutside(g, s, Identity(hosted))
    requires SameOutside(s, w, {(local, HostedSecretKey(ns, req))})
    ensures ObjectAt(w, local, KubeconfigSecretKey(req)) == ObjectAt(g, local, KubeconfigSecretKey(req))
  {
    var k := KubeconfigSecretKey(req);
    NamesDistinct(req.name);
    assert k != TokenSecretKey;
    assert k != HostedSecretKey(ns, req);
    Untouched(g, s, Identity(hosted), local, k);
    Untouched(s, w, {(local, HostedSecretKey(ns, req))}, local, k);
  }


  /** A write that leaves the identity places of `c` alone keeps `c` bootstrapped, with the same token secret. */
  lemma IdentityKept(w: Fleet, r: Fleet, touched: set<(ClusterId, Key)>, c: ClusterId)
    requires Bootstrapped(w, c) && ExtendsOutside(w, r, touched)
    requires (c, ServiceAccountKey) !in touched && (c, BindingKey) !in touched && (c, TokenSecretKey) !in touched
    ensures Bootstrapped(r, c) && TokenSecret(r, c) == TokenSecret(w, c)
  {
    Kept(w, r, touched, c, ServiceAccountKey);
    Kept(w, r, touched, c, BindingKey);
    Kept(w, r, touched, c, TokenSecretKey);
  }

  /** The hosted secret's place is none of the places the local registration relies on. */
  lemma HostedPlaceApart(ns: string, local: ClusterId, req: Request)
    requires req.name != LocalClusterName && HostedSecretKey(ns, req) != TokenSecretKey
    ensures var touched := {(local, HostedSecretKey(ns, req))};
      && (local, ServiceAccountKey) !in touched && (local, BindingKey) !in touched && (local, TokenSecretKey) !in touched
      && (local, Key(SecretKind, ns, LocalClusterName)) !in touched
  {
  }

  /** Writing the hosted secret under a name of its own leaves the local cluster in place. */
  lemma LocalKept(w: Fleet, r: Fleet, ns: string, local: ClusterId, req: Request)
    requires LocalInPlace(w, ns, local) && ExtendsOutside(w, r, {(local, HostedSecretKey(ns, req))})
    requires req.name != LocalClusterName && HostedSecretKey(ns, req) != TokenSecretKey
    ensures LocalInPlace(r, ns, local)
  {
    HostedPlaceApart(ns, local, req);
    InPlaceKept(w, r, {(local, HostedSecretKey(ns, req))}, local, local, ns, LocalLabels, LocalClusterName, LocalServer);
  }

  /** A write that leaves the identity of `c` and the secret describing it alone keeps both in place. */
  lemma InPlaceKept(w: Fleet, r: Fleet, touched: set<(ClusterId, Key)>, c: ClusterId, owner: ClusterId, ns: string,
                    labels: map<string, string>, name: string, server: string)
    requires InPlace(w, c, owner, ns, labels, name, server) && ExtendsOutside(w, r, touched)
    requires (c, ServiceAccountKey) !in touched && (c, BindingKey) !in touched && (c, TokenSecretKey) !in touched
    requires (owner, Key(SecretKind, ns, name)) !in touched
    ensures InPlace(r, c, owner, ns, labels, name, server)
  {
    IdentityKept(w, r, touched, c);
    RegisteredKept(w, r, touched, owner, ns, labels, Cluster(name, server, Credentials(TokenSecret(w, c))));
  }


  /**
   * Registering again, with no fault to meet, after a successful registration
   * writes nothing and reports success, provided the hosted secret's name
   * clashes neither with the local secret nor with the local token secret.
   */
  lemma RegisterIdempotent(g: Fleet, ns: string, local: ClusterId, req: Request, labels: map<string, string>,
                           clientFor: ClientFactory, parse: KubeconfigParser)
    requires NoFaults(g) && local in g
    requires req.name != LocalClusterName && HostedSecretKey(ns, req) != TokenSecretKey
    ensures var r := Register(g, ns, local, req, labels, clientFor, parse);
      && NoFaults(r.fleet) && r.fleet.Keys == g.Keys
      && (r.err.None? ==> Register(r.fleet, ns, local, req, labels, clientFor, parse) == r)
  {
    var w := RegisterLocal(g, ns, local);
    if w.err.None? && !Disabled(labels) {
      HostedRegisterIdempotent(g, ns, local, req, labels, clientFor, parse);
    } else {
      LocalRegisterIdempotent(g, ns, local, req, labels, clientFor, parse);
    }
  }

  /** `RegisterIdempotent` when the reconcile stops after the local cluster. */
  lemma LocalRegisterIdempotent(g: Fleet, ns: string, local: ClusterId, req: Request, labels: map<string, string>,
                                clientFor: ClientFactory, parse: KubeconfigParser)
    requires NoFaults(g) && local in g
    requires var w := RegisterLocal(g, ns, local); w.err.Some? || Disabled(labels)
    ensures var r := Register(g, ns, local, req, labels, clientFor, parse);
      && NoFaults(r.fleet) && r.fleet.Keys == g.Keys
      && (r.err.None? ==> Register(r.fleet, ns, local, req, labels, clientFor, parse) == r)
  {
    var w := RegisterLocal(g, ns, local);
    LocalEstablished(g, ns, local);
    if w.err.None? {
      LocalSettled(w.fleet, ns, local);
    }
  }

  /** `RegisterIdempotent` when the reconcile goes on to the hosted cluster. */
  lemma HostedRegisterIdempotent(g: Fleet, ns: string, local: ClusterId, req: Request, labels: map<string, string>,
                                 clientFor: ClientFactory, parse: KubeconfigParser)
    requires NoFaults(g) && local in g
    requires req.name != LocalClusterName && HostedSecretKey(ns, req) != TokenSecretKey
    requires RegisterLocal(g, ns, local).err.None? && !Disabled(labels)
    ensures var r := Register(g, ns, local, req, labels, clientFor, parse);
      && NoFaults(r.fleet) && r.fleet.Keys == g.Keys
      && (r.err.None? ==> Register(r.fleet, ns, local, req, labels, clientFor, parse) == r)
  {
    var w := RegisterLocal(g, ns, local);
    LocalEstablished(g, ns, local);
    HostedIdempotent(w.fleet, ns, local, req, labels, clientFor, parse);
  }

  /**
   * Once the local cluster is in place, registering the hosted cluster and
   * then registering again writes nothing more.
   */
  lemma HostedIdempotent(w: Fleet, ns: string, local: ClusterId, req: Request, labels: map<string, string>,
                         clientFor: ClientFactory, parse: KubeconfigParser)
    requires NoFaults(w) && local in w && LocalInPlace(w, ns, local) && !Disabled(labels)
    requires req.name != LocalClusterName && HostedSecretKey(ns, req) != TokenSecretKey
    ensures var r := RegisterHosted(w, ns, local, req, labels, clientFor, parse);
      && NoFaults(r.fleet) && r.fleet.Keys == w.Keys
      && (r.err.None? ==> Register(r.fleet, ns, local, req, labels, clientFor, parse) == r)
  {
    var r := RegisterHosted(w, ns, local, req, labels, clientFor, parse);
    HostedEstablished(w, ns, local, req, labels, clientFor, parse);
    if r.err.None? {
      RegisterHostedEffect(w, ns, local, req, labels, clientFor, parse);
      LocalKept(w, r.fleet, ns, local, req);
      RegisterSettled(r.fleet, ns, local, req, labels, clientFor, parse);
    }
  }

  /** Registering a HostedCluster whose local and hosted clusters are both in place writes nothing. */
  lemma RegisterSettled(g: Fleet, ns: string, local: ClusterId, req: Request, labels: map<string, string>,
                        clientFor: ClientFactory, parse: KubeconfigParser)
    requires NoFaults(g) && local in g
    requires LocalInPlace(g, ns, local) && HostedInPlace(g, ns, local, req, labels, clientFor, parse)
    ensures Register(g, ns, local, req, labels, clientFor, parse) == Reconciled(g, ns, None)
  {
    LocalSettled(g, ns, local);
    HostedSettled(g, ns, local, req, labels, clientFor, parse);
  }

  /** Registration never touches a HostedCluster object. */
  lemma RegisterKeepsHostedCluster(g: Fleet, ns: string, local: ClusterId, req: Request, labels: map<string, string>,
                                   clientFor: ClientFactory, parse: KubeconfigParser)
    requires ObjectAt(g, local, HostedClusterKey(req)).Some?
    ensures var r := Register(g, ns, local, req, labels, clientFor, parse);
      ObjectAt(r.fleet, local, HostedClusterKey(req)) == ObjectAt(g, local, HostedClusterKey(req))
  {
    var w := RegisterLocal(g, ns, local);
    var r := Register(g, ns, local, req, labels, clientFor, parse);
    RegisterOrder(g, ns, local, req, labels, clientFor, parse);
    HostedClusterKept(g, w.fleet, r.fleet, ns, local, req);
  }

  /** Neither registration step writes a HostedCluster object. */
  lemma HostedClusterKept(g: Fleet, w: Fleet, r: Fleet, ns: string, local: ClusterId, req: Request)
    requires ObjectAt(g, local, HostedClusterKey(req)).Some?
    requires SameOutside(g, w, LocalWrites(local, ns)) && ExtendsOutside(w, r, {(local, HostedSecretKey(ns, req))})
    ensures ObjectAt(r, local, HostedClusterKey(req)) == ObjectAt(g, local, HostedClusterKey(req))
  {
    var k := HostedClusterKey(req);
    assert (local, k) !in LocalWrites(local, ns) && (local, k) !in {(local, HostedSecretKey(ns, req))} by {
      assert k.kind == HostedClusterKind;
    }
    Untouched(g, w, LocalWrites(local, ns), local, k);
    Kept(w, r, {(local, HostedSecretKey(ns, req))}, local, k);
  }

  /**
   * Reconciling is idempotent. With no fault to meet, reconciling the same
   * HostedCluster again, with the GitOps namespace the first reconcile left,
   * right after a successful reconcile, writes nothing and gives the same
   * outcome: a missing HostedCluster stays missing, a deleted secret stays
   * deleted, and every upsert of a live one finds its object already in
   * place. This needs the HostedCluster not to be named `in-cluster-local`
   * and its secret not to be the local token secret (the GitOps namespace
   * `kube-system` with the name `hyper-ops-admin-token`).
   */
  lemma ReconcileIdempotent(f: Fleet, ns: string, local: ClusterId, req: Request, clientFor: ClientFactory, parse: KubeconfigParser)
    requires NoFaults(f) && local in f && req.name != LocalClusterName
    requires var r := Reconcile(f, ns, local, req, clientFor, parse);
      r.err.None? && HostedSecretKey(r.namespace, req) != TokenSecretKey
    ensures var r := Reconcile(f, ns, local, req, clientFor, parse);
      Reconcile(r.fleet, r.namespace, local, req, clientFor, parse) == r
  {
    var hc := Get(f, local, HostedClusterKey(req));
    GetEffect(f, local, HostedClusterKey(req));
    var r := Reconcile(f, ns, local, req, clientFor, parse);
    GetEffect(r.fleet, local, HostedClusterKey(req));
    if hc.result.Ok? && hc.result.value.deleting {
      var k := Key(SecretKind, ns, req.name);
      DeleteEffect(f, local, k);
      DeleteEffect(r.fleet, local, k);
    }
    if hc.result.Ok? && !hc.result.value.deleting {
      var labels := hc.result.value.labels;
      var ns' := NamespaceFor(ns, labels);
      ReconcileRegisters(f, ns, local, req, clientFor, parse);
      RegisterIdempotent(f, ns', local, req, labels, clientFor, parse);
      RegisterKeepsHostedCluster(f, ns', local, req, labels, clientFor, parse);
      assert NamespaceFor(ns', labels) == ns';
      assert Reconcile(r.fleet, ns', local, req, clientFor, parse) == Register(r.fleet, ns', local, req, labels, clientFor, parse);
    }
  }
}
