/**
 * Properties of one reconcile and of two in a row (Reconcile and the event
 * filter in controllers/hyperops_controller.go).
 */
module ReconcileProperties {
  import opened Wrappers
  import opened Bytes
  import opened Kube
  import opened HyperOps
  import opened SetupProperties
  import opened ClusterSecretProperties
  import Upsert
  import Base64Url
  import ConfigJson

  // ---------------------------------------------------------------------------
  // The event filter

  /**
   * Create and update events are admitted exactly when the (new) object has
   * the enabled label, whatever its value, so `enabled: "false"` still
   * reaches the reconciler; the old object of an update plays no part, and
   * delete and generic events are not filtered.
   */
  lemma AdmitOnEnabledKey(o: Object, older: Object, v: string)
    ensures Admit(CreateEvent(o)) <==> EnabledLabel in o.labels
    ensures Admit(UpdateEvent(older, o)) <==> EnabledLabel in o.labels
    ensures var on := o.(labels := o.labels[EnabledLabel := v]);
      Admit(CreateEvent(on)) && Admit(UpdateEvent(older, on))
    ensures var off := o.(labels := o.labels - {EnabledLabel});
      !Admit(CreateEvent(off)) && !Admit(UpdateEvent(older, off))
    ensures Admit(DeleteEvent(o)) && Admit(GenericEvent(o))
  {
  }

  // ---------------------------------------------------------------------------
  // Labels

  /**
   * The prefix test has no separator: every key that merely begins with the
   * label domain is kept with its value (`hyper-ops.cloudmonkey.org-extra`
   * as well as `hyper-ops.cloudmonkey.org/type`), and a key with anything
   * but the domain in front (`example.com/hyper-ops.cloudmonkey.org`) is
   * dropped.
   */
  lemma PrefixWithoutSeparator(m: map<string, string>, s: string, p: string)
    ensures HyperOpsLabel + s in m ==>
      HyperOpsLabel + s in HyperOpsLabels(m) && HyperOpsLabels(m)[HyperOpsLabel + s] == m[HyperOpsLabel + s]
    ensures p != [] && p[0] != HyperOpsLabel[0] ==> p + s !in HyperOpsLabels(m)
  {
    assert HyperOpsLabel <= HyperOpsLabel + s;
    if p != [] {
      assert (p + s)[0] == p[0];
    }
  }

  /**
   * The hosted secret's labels: every label of the HostedCluster whose key has
   * the hyper-ops prefix, with its value, except that the type is "hosted",
   * plus the ArgoCD secret type; no other key.
   */
  lemma HostedLabelsExact(labels: map<string, string>)
    ensures var l := ArgoLabels(HostedLabels(labels));
      && (forall k :: k in l <==> (k in labels && HyperOpsLabel <= k) || k == TypeLabel || k == ArgoCDSecretTypeLabel)
      && l[TypeLabel] == "hosted" && l[ArgoCDSecretTypeLabel] == ArgoCDSecretTypeCluster
      && (forall k :: k in l && k != TypeLabel && k != ArgoCDSecretTypeLabel ==> l[k] == labels[k])
  {
    assert TypeLabel != ArgoCDSecretTypeLabel by {
      assert TypeLabel[0] != ArgoCDSecretTypeLabel[0];
    }
    assert !(HyperOpsLabel <= ArgoCDSecretTypeLabel) by {
      assert HyperOpsLabel[0] != ArgoCDSecretTypeLabel[0];
    }
  }

  /** The local secret's labels are exactly the type "local" and the ArgoCD secret type. */
  lemma LocalLabelsExact()
    ensures ArgoLabels(LocalLabels) == map[TypeLabel := "local", ArgoCDSecretTypeLabel := ArgoCDSecretTypeCluster]
  {
  }

  // ---------------------------------------------------------------------------
  // Names

  /** No name the controller writes under can be the name of the kubeconfig secret, or each other. */
  lemma NamesDistinct(name: string)
    ensures LocalClusterName != TokenSecretName
    ensures name + "-admin-kubeconfig" != TokenSecretName
    ensures name + "-admin-kubeconfig" != LocalClusterName
    ensures name + "-admin-kubeconfig" != name
  {
    var k := name + "-admin-kubeconfig";
    assert k[|k| - 1] == 'g';
    assert TokenSecretName[|TokenSecretName| - 1] == 'n';
    assert LocalClusterName[|LocalClusterName| - 1] == 'l';
    assert |LocalClusterName| == 16 && |TokenSecretName| == 21;
  }

  // ---------------------------------------------------------------------------
  // Fetching and deleting

  /**
   * When the HostedCluster cannot be read, the reconcile changes no object and
   * keeps the namespace; it succeeds exactly when the read said NotFound, and
   * otherwise returns the read's error.
   */
  lemma ReconcileFetchFails(f: Fleet, ns: string, local: ClusterId, req: Request, clientFor: ClientFactory, parse: KubeconfigParser)
    requires Get(f, local, HostedClusterKey(req)).result.Err?
    ensures var e := Get(f, local, HostedClusterKey(req)).result.error;
      var r := Reconcile(f, ns, local, req, clientFor, parse);
      && r.namespace == ns && SameObjects(f, r.fleet)
      && (r.err.None? <==> e == NotFound)
      && (r.err.Some? ==> r.err == Some(Api(e)))
  {
    GetEffect(f, local, HostedClusterKey(req));
  }

  /** A HostedCluster that does not exist is no error, and nothing at all changes. */
  lemma ReconcileNotFound(f: Fleet, ns: string, local: ClusterId, req: Request, clientFor: ClientFactory, parse: KubeconfigParser)
    requires NoFaults(f) && local in f && HostedClusterKey(req) !in f[local].objects
    ensures Reconcile(f, ns, local, req, clientFor, parse) == Reconciled(f, ns, None)
  {
    GetEffect(f, local, HostedClusterKey(req));
  }

  /** The HostedCluster is there and is not being deleted. */
  predicate Live(f: Fleet, local: ClusterId, req: Request)
  {
    var hc := Get(f, local, HostedClusterKey(req));
    hc.result.Ok? && !hc.result.value.deleting
  }

  /** The labels of the HostedCluster, when it could be read. */
  function LabelsOf(f: Fleet, local: ClusterId, req: Request): map<string, string>
  {
    var hc := Get(f, local, HostedClusterKey(req));
    if hc.result.Ok? then hc.result.value.labels else map[]
  }

  /**
   * A HostedCluster being deleted: the one write is the deletion of the secret
   * named after it in the current namespace; a secret already gone is no
   * error; the namespace is not touched. With no fault to meet, the reconcile
   * succeeds and the secret is gone.
   */
  lemma ReconcileDeleting(f: Fleet, ns: string, local: ClusterId, req: Request, clientFor: ClientFactory, parse: KubeconfigParser)
    requires Get(f, local, HostedClusterKey(req)).result.Ok? && Get(f, local, HostedClusterKey(req)).result.value.deleting
    ensures var r := Reconcile(f, ns, local, req, clientFor, parse);
      var k := Key(SecretKind, ns, req.name);
      && r.namespace == ns
      && SameOutside(f, r.fleet, {(local, k)})
      && (ObjectAt(r.fleet, local, k).None? || ObjectAt(r.fleet, local, k) == ObjectAt(f, local, k))
      && (r.err.Some? ==> r.err.value.Api? && r.err.value.api != NotFound && SameObjects(f, r.fleet))
      && (NoFaults(f) ==> r.err.None? && ObjectAt(r.fleet, local, k).None? && NoFaults(r.fleet))
  {
    var hc := Get(f, local, HostedClusterKey(req));
    var k := Key(SecretKind, ns, req.name);
    GetEffect(f, local, HostedClusterKey(req));
    DeleteEffect(hc.fleet, local, k);
  }

  /**
   * The GitOps namespace after a reconcile: the HostedCluster's gitops-namespace
   * label when it is live and has one, and the namespace from before otherwise;
   * it is never reset to the default.
   */
  lemma ReconcileNamespace(f: Fleet, ns: string, local: ClusterId, req: Request, clientFor: ClientFactory, parse: KubeconfigParser)
    ensures var r := Reconcile(f, ns, local, req, clientFor, parse);
      var labels := LabelsOf(f, local, req);
      && (Live(f, local, req) && GitOpsNamespaceLabel in labels ==> r.namespace == labels[GitOpsNamespaceLabel])
      && (!(Live(f, local, req) && GitOpsNamespaceLabel in labels) ==> r.namespace == ns)
  {
  }

  // ---------------------------------------------------------------------------
  // Registering the local and the hosted cluster

  /** No object present in `f` changes in `g` except possibly at the `touched` places; absent ones may appear. */
  ghost predicate ExtendsOutside(f: Fleet, g: Fleet, touched: set<(ClusterId, Key)>)
  {
    f.Keys == g.Keys
    && forall c, key :: (c, key) !in touched && ObjectAt(f, c, key).Some? ==> ObjectAt(g, c, key) == ObjectAt(f, c, key)
  }

  /** An object present before a write that does not touch its place is still there, unchanged. */
  lemma Kept(f: Fleet, g: Fleet, touched: set<(ClusterId, Key)>, c: ClusterId, key: Key)
    requires ExtendsOutside(f, g, touched) && (c, key) !in touched && ObjectAt(f, c, key).Some?
    ensures ObjectAt(g, c, key) == ObjectAt(f, c, key)
  {
  }

  /** A write that leaves the place of a registered secret alone keeps it registered. */
  lemma RegisteredKept(w: Fleet, r: Fleet, touched: set<(ClusterId, Key)>, c: ClusterId, ns: string,
                       labels: map<string, string>, cluster: Cluster)
    requires Registered(w, c, ns, labels, cluster) && ExtendsOutside(w, r, touched)
    requires (c, ClusterSecretKey(ns, cluster)) !in touched
    ensures Registered(r, c, ns, labels, cluster)
  {
    Kept(w, r, touched, c, ClusterSecretKey(ns, cluster));
  }

  function LocalSecretKey(ns: string): Key
  {
    Key(SecretKind, ns, LocalClusterName)
  }

  /** The places registering the local cluster may write: its identity and its ArgoCD secret. */
  function LocalWrites(local: ClusterId, ns: string): set<(ClusterId, Key)>
  {
    Identity(local) + {(local, LocalSecretKey(ns))}
  }

  /** The local cluster as described with the credentials found on it. */
  function LocalCluster(g: Fleet, local: ClusterId): Cluster
  {
    Cluster(LocalClusterName, LocalServer, Credentials(TokenSecret(g, local)))
  }

  /**
   * Registering the local cluster writes only its identity and its ArgoCD
   * secret; when it succeeds the identity is in place and the secret
   * `in-cluster-local` in `ns` describes server `https://kubernetes.default.svc`
   * with the credentials of the local token secret.
   */
  lemma RegisterLocalEffect(f: Fleet, ns: string, local: ClusterId)
    ensures var w := RegisterLocal(f, ns, local);
      && SameOutside(f, w.fleet, LocalWrites(local, ns))
      && (w.err.None? ==>
            Bootstrapped(w.fleet, local) && Registered(w.fleet, local, ns, LocalLabels, LocalCluster(w.fleet, local)))
  {
    var s := SetupClusterConfig(f, local, LocalServer, LocalClusterName);
    SetupFrame(f, local, LocalServer, LocalClusterName);
    SameOutsideWiden(f, s.fleet, Identity(local), LocalWrites(local, ns));
    NamesDistinct("");
    SetupThenSecret(f, local, ns, LocalLabels, LocalServer, LocalClusterName);
  }

  /**
   * Bootstrapping cluster `c` and then writing the secret of the cluster
   * `name` on it touches only the identity and that secret, and on success
   * leaves both in place.
   */
  lemma SetupThenSecret(f: Fleet, c: ClusterId, ns: string, labels: map<string, string>, server: string, name: string)
    requires Key(SecretKind, ns, name) != TokenSecretKey
    ensures var s := SetupClusterConfig(f, c, server, name);
      s.result.Ok? ==>
        var w := CreateArgoCDClusterSecret(s.fleet, c, ns, labels, s.result.value);
        && SameOutside(f, w.fleet, Identity(c) + {(c, Key(SecretKind, ns, name))})
        && (w.err.None? ==>
              Bootstrapped(w.fleet, c) && Registered(w.fleet, c, ns, labels, Cluster(name, server, Credentials(TokenSecret(w.fleet, c)))))
  {
    var s := SetupClusterConfig(f, c, server, name);
    if s.result.Ok? {
      SetupFrame(f, c, server, name);
      SetupSucceeds(f, c, server, name);
      var w := CreateArgoCDClusterSecret(s.fleet, c, ns, labels, s.result.value);
      ClusterSecretShape(s.fleet, c, ns, labels, s.result.value);
      SameOutsideTrans(f, s.fleet, w.fleet, Identity(c), {(c, Key(SecretKind, ns, name))});
      SecretKeepsIdentity(s.fleet, c, c, ns, labels, s.result.value);
    }
  }

  /** Writing an ArgoCD secret under a name other than the token secret's leaves every identity as it was. */
  lemma SecretKeepsIdentity(g: Fleet, c: ClusterId, writer: ClusterId, ns: string, labels: map<string, string>, cluster: Cluster)
    requires ClusterSecretKey(ns, cluster) != TokenSecretKey
    ensures var w := CreateArgoCDClusterSecret(g, writer, ns, labels, cluster);
      && ObjectAt(w.fleet, c, ServiceAccountKey) == ObjectAt(g, c, ServiceAccountKey)
      && ObjectAt(w.fleet, c, BindingKey) == ObjectAt(g, c, BindingKey)
      && ObjectAt(w.fleet, c, TokenSecretKey) == ObjectAt(g, c, TokenSecretKey)
      && TokenSecret(w.fleet, c) == TokenSecret(g, c)
      && (Bootstrapped(g, c) ==> Bootstrapped(w.fleet, c))
  {
    var w := CreateArgoCDClusterSecret(g, writer, ns, labels, cluster);
    var touched := {(writer, ClusterSecretKey(ns, cluster))};
    ClusterSecretShape(g, writer, ns, labels, cluster);
    Untouched(g, w.fleet, touched, c, ServiceAccountKey);
    Untouched(g, w.fleet, touched, c, BindingKey);
    Untouched(g, w.fleet, touched, c, TokenSecretKey);
  }

  /** The hosted cluster's ArgoCD secret. */
  function HostedSecretKey(ns: string, req: Request): Key
  {
    Key(SecretKind, ns, req.name)
  }

  /**
   * Registering the hosted cluster. A kubeconfig secret that cannot be read is
   * no error when it is missing and otherwise that error; a client or a server
   * that cannot be had from it is an error; in all of these nothing changes.
   * Otherwise only the hosted cluster's identity (which is only ever created)
   * and the hosted secret are written, and on success the hosted secret, named
   * after the HostedCluster in `ns`, describes the kubeconfig's first server
   * with a non-empty token and a CA that decodes.
   */
  lemma RegisterHostedEffect(f: Fleet, ns: string, local: ClusterId, req: Request, labels: map<string, string>,
                             clientFor: ClientFactory, parse: KubeconfigParser)
    ensures var kc := Get(f, local, KubeconfigSecretKey(req));
      var r := RegisterHosted(f, ns, local, req, labels, clientFor, parse);
      && r.namespace == ns
      && ExtendsOutside(f, r.fleet, {(local, HostedSecretKey(ns, req))})
      && (kc.result.Err? ==> r.err == IgnoreNotFound(kc.result.error) && SameObjects(f, r.fleet))
      && (kc.result.Ok? ==>
            var kubeconfig := DataOf(kc.result.value, "kubeconfig");
            && (clientFor(kubeconfig).Err? ==>
                  r.err == Some(ClientError(clientFor(kubeconfig).error)) && SameObjects(f, r.fleet))
            && (clientFor(kubeconfig).Ok? && parse(kubeconfig).Err? ==>
                  r.err == Some(KubeconfigError(parse(kubeconfig).error)) && SameObjects(f, r.fleet))
            && (clientFor(kubeconfig).Ok? && parse(kubeconfig).Ok? && parse(kubeconfig).value.clusters == [] ==>
                  r.err == Some(NoClusterEntry) && SameObjects(f, r.fleet))
            && (r.err.None? ==>
                  clientFor(kubeconfig).Ok? && parse(kubeconfig).Ok? && |parse(kubeconfig).value.clusters| > 0
                  && labels != map[]
                  && exists config: ConfigJson.ClusterConfig ::
                       && Registered(r.fleet, local, ns, HostedLabels(labels),
                                     Cluster(req.name, parse(kubeconfig).value.clusters[0].server, config))
                       && |config.bearerToken| > 0
                       && Base64Url.Decode(config.caData).Some? && |Base64Url.Decode(config.caData).value| > 0))
  {
    var kc := Get(f, local, KubeconfigSecretKey(req));
    GetEffect(f, local, KubeconfigSecretKey(req));
    if kc.result.Ok? {
      var kubeconfig := DataOf(kc.result.value, "kubeconfig");
      var hosted := clientFor(kubeconfig);
      var server := ServerFromKubeconfig(parse(kubeconfig));
      if hosted.Ok? && server.Ok? {
        var s := SetupClusterConfig(kc.fleet, hosted.value, server.value, req.name);
        SetupFrame(kc.fleet, hosted.value, server.value, req.name);
        if s.result.Ok? {
          SetupSucceeds(kc.fleet, hosted.value, server.value, req.name);
          var w := CreateArgoCDClusterSecret(s.fleet, local, ns, HostedLabels(labels), s.result.value);
          ClusterSecretShape(s.fleet, local, ns, HostedLabels(labels), s.result.value);
          if w.err.None? {
            var config := s.result.value.config;
            assert Registered(w.fleet, local, ns, HostedLabels(labels), Cluster(req.name, server.value, config));
          }
        }
      }
    }
  }

  /**
   * A HostedCluster without labels is never registered: once its cluster is
   * bootstrapped, adding the type label to its nil label map fails before the
   * ArgoCD secret is written, and the only way to end without an error is a
   * missing kubeconfig, with no object changed.
   */
  lemma RegisterHostedNoLabels(f: Fleet, ns: string, local: ClusterId, req: Request,
                               clientFor: ClientFactory, parse: KubeconfigParser)
    ensures var kc := Get(f, local, KubeconfigSecretKey(req));
      var r := RegisterHosted(f, ns, local, req, map[], clientFor, parse);
      && (r.err.None? ==> kc.result == Err(NotFound) && SameObjects(f, r.fleet))
      && (kc.result.Ok? ==>
            var kubeconfig := DataOf(kc.result.value, "kubeconfig");
            var hosted := clientFor(kubeconfig);
            var server := ServerFromKubeconfig(parse(kubeconfig));
            hosted.Ok? && server.Ok? ==>
              var s := SetupClusterConfig(kc.fleet, hosted.value, server.value, req.name);
              s.result.Ok? ==> r == Reconciled(s.fleet, ns, Some(NilLabels)))
  {
    GetEffect(f, local, KubeconfigSecretKey(req));
  }

  /**
   * The credentials of a successful hosted registration are the hosted
   * cluster's own: whatever errors the stores are scripted to report, the
   * hosted secret carries the token and the CA of the token secret in the
   * cluster the kubeconfig's client talks to, and that cluster stays
   * bootstrapped. Only the collision of the hosted secret with the token
   * secret is ruled out, since the hosted write would then replace the token.
   */
  lemma RegisterHostedCredentials(f: Fleet, ns: string, local: ClusterId, req: Request, labels: map<string, string>,
                                  clientFor: ClientFactory, parse: KubeconfigParser)
    requires HostedSecretKey(ns, req) != TokenSecretKey
    ensures var kc := Get(f, local, KubeconfigSecretKey(req));
      var r := RegisterHosted(f, ns, local, req, labels, clientFor, parse);
      r.err.None? && kc.result.Ok? ==>
        var kubeconfig := DataOf(kc.result.value, "kubeconfig");
        && clientFor(kubeconfig).Ok? && parse(kubeconfig).Ok? && |parse(kubeconfig).value.clusters| > 0
        && Bootstrapped(r.fleet, clientFor(kubeconfig).value)
        && Registered(r.fleet, local, ns, HostedLabels(labels),
                      Cluster(req.name, parse(kubeconfig).value.clusters[0].server,
                              Credentials(TokenSecret(r.fleet, clientFor(kubeconfig).value))))
  {
    var kc := Get(f, local, KubeconfigSecretKey(req));
    if kc.result.Ok? {
      var kubeconfig := DataOf(kc.result.value, "kubeconfig");
      var hosted := clientFor(kubeconfig);
      var server := ServerFromKubeconfig(parse(kubeconfig));
      if hosted.Ok? && server.Ok? {
        var s := SetupClusterConfig(kc.fleet, hosted.value, server.value, req.name);
        if s.result.Ok? && labels != map[] {
          SetupSucceeds(kc.fleet, hosted.value, server.value, req.name);
          ClusterSecretShape(s.fleet, local, ns, HostedLabels(labels), s.result.value);
          SecretKeepsIdentity(s.fleet, hosted.value, local, ns, HostedLabels(labels), s.result.value);
        }
      }
    }
  }

  // ---------------------------------------------------------------------------
  // One reconcile of a live HostedCluster

  /** The stores after the HostedCluster has been read. */
  function Fetched(f: Fleet, local: ClusterId, req: Request): Fleet
  {
    Get(f, local, HostedClusterKey(req)).fleet
  }

  /** A live HostedCluster is registered, with the namespace override in effect. */
  lemma ReconcileRegisters(f: Fleet, ns: string, local: ClusterId, req: Request, clientFor: ClientFactory, parse: KubeconfigParser)
    requires Live(f, local, req)
    ensures SameObjects(f, Fetched(f, local, req))
    ensures Reconcile(f, ns, local, req, clientFor, parse)
         == Register(Fetched(f, local, req), NamespaceFor(ns, LabelsOf(f, local, req)), local, req, LabelsOf(f, local, req), clientFor, parse)
  {
  }

  /**
   * Registration: the local cluster is registered first, whatever the enabled
   * label says, and its failure ends the reconcile; a disabled HostedCluster
   * stops there, with no hosted write at all; afterwards no object that
   * exists is changed except the hosted secret.
   */
  lemma RegisterOrder(g: Fleet, ns: string, local: ClusterId, req: Request, labels: map<string, string>,
                      clientFor: ClientFactory, parse: KubeconfigParser)
    ensures var w := RegisterLocal(g, ns, local);
      var r := Register(g, ns, local, req, labels, clientFor, parse);
      && r.namespace == ns
      && SameOutside(g, w.fleet, LocalWrites(local, ns))
      && (r.err.None? ==> w.err.None? && Registered(w.fleet, local, ns, LocalLabels, LocalCluster(w.fleet, local)))
      && (w.err.Some? ==> r.err == w.err && r.fleet == w.fleet)
      && (Disabled(labels) ==> r.err == w.err && r.fleet == w.fleet)
      && ExtendsOutside(w.fleet, r.fleet, {(local, HostedSecretKey(ns, req))})
  {
    var w := RegisterLocal(g, ns, local);
    RegisterLocalEffect(g, ns, local);
    if w.err.None? && !Disabled(labels) {
      RegisterHostedEffect(w.fleet, ns, local, req, labels, clientFor, parse);
    }
  }

  /**
   * A live HostedCluster with `enabled: "false"` still has the local cluster
   * registered, and nothing else: the only places written are the local
   * identity and the local secret, and the outcome is that of the local
   * registration.
   */
  lemma ReconcileDisabled(f: Fleet, ns: string, local: ClusterId, req: Request, clientFor: ClientFactory, parse: KubeconfigParser)
    requires Live(f, local, req) && Disabled(LabelsOf(f, local, req))
    ensures var ns' := NamespaceFor(ns, LabelsOf(f, local, req));
      var r := Reconcile(f, ns, local, req, clientFor, parse);
      && SameOutside(f, r.fleet, LocalWrites(local, ns'))
      && r.err == RegisterLocal(Fetched(f, local, req), ns', local).err
  {
    var labels := LabelsOf(f, local, req);
    var ns' := NamespaceFor(ns, labels);
    var g := Fetched(f, local, req);
    ReconcileRegisters(f, ns, local, req, clientFor, parse);
    RegisterOrder(g, ns', local, req, labels, clientFor, parse);
    var w := RegisterLocal(g, ns', local);
    assert SameOutside(f, g, {});
    SameOutsideTrans(f, g, w.fleet, {}, LocalWrites(local, ns'));
    assert {} + LocalWrites(local, ns') == LocalWrites(local, ns');
  }

  /** The local secret as a successful registration leaves it. */
  ghost predicate LocalSecretIn(g: Fleet, local: ClusterId, ns: string)
  {
    && ObjectAt(g, local, LocalSecretKey(ns)).Some?
    && ObjectAt(g, local, LocalSecretKey(ns)).value.labels == map[TypeLabel := "local", ArgoCDSecretTypeLabel := ArgoCDSecretTypeCluster]
    && exists config: ConfigJson.ClusterConfig ::
         ObjectAt(g, local, LocalSecretKey(ns)).value.body
         == SecretBody(SecretTypeOpaque, ClusterSecretData(Cluster(LocalClusterName, LocalServer, config)))
  }

  lemma LocalSecretSurvives(w: Fleet, r: Fleet, local: ClusterId, ns: string, req: Request, cl: Cluster)
    requires cl.name == LocalClusterName && cl.server == LocalServer
    requires Registered(w, local, ns, LocalLabels, cl)
    requires r == w || (ExtendsOutside(w, r, {(local, HostedSecretKey(ns, req))}) && req.name != LocalClusterName)
    ensures LocalSecretIn(r, local, ns)
  {
    SecretSurvives(w, r, local, ns, req, LocalLabels, cl);
    var o := ObjectAt(r, local, ClusterSecretKey(ns, cl)).value;
    assert ClusterSecretKey(ns, cl) == LocalSecretKey(ns);
    LocalLabelsExact();
    assert o.labels == map[TypeLabel := "local", ArgoCDSecretTypeLabel := ArgoCDSecretTypeCluster];
    assert cl == Cluster(LocalClusterName, LocalServer, cl.config);
    assert o.body == SecretBody(SecretTypeOpaque, ClusterSecretData(Cluster(LocalClusterName, LocalServer, cl.config)));
  }

  /** A secret registered before survives a hosted write that may only touch a secret of another name. */
  lemma SecretSurvives(w: Fleet, r: Fleet, local: ClusterId, ns: string, req: Request, labels: map<string, string>, cl: Cluster)
    requires Registered(w, local, ns, labels, cl)
    requires r == w || (ExtendsOutside(w, r, {(local, HostedSecretKey(ns, req))}) && req.name != cl.name)
    ensures Registered(r, local, ns, labels, cl)
  {
    if r != w {
      RegisteredKept(w, r, {(local, HostedSecretKey(ns, req))}, local, ns, labels, cl);
    }
  }

  lemma RegisterLocalSecret(g: Fleet, ns: string, local: ClusterId, req: Request, labels: map<string, string>,
                            clientFor: ClientFactory, parse: KubeconfigParser)
    ensures var r := Register(g, ns, local, req, labels, clientFor, parse);
      r.err.None? && (Disabled(labels) || req.name != LocalClusterName) ==> LocalSecretIn(r.fleet, local, ns)
  {
    var w := RegisterLocal(g, ns, local);
    var r := Register(g, ns, local, req, labels, clientFor, parse);
    RegisterOrder(g, ns, local, req, labels, clientFor, parse);
    if r.err.None? && (Disabled(labels) || req.name != LocalClusterName) {
      LocalSecretSurvives(w.fleet, r.fleet, local, ns, req, LocalCluster(w.fleet, local));
    }
  }

  /**
   * After a successful reconcile of a live HostedCluster the local secret
   * `in-cluster-local` is in the GitOps namespace, with exactly the labels
   * type "local" and the ArgoCD secret type, and data describing server
   * `https://kubernetes.default.svc` (unless the HostedCluster is itself named
   * `in-cluster-local` and its hosted secret took that place).
   */
  lemma ReconcileLocalSecret(f: Fleet, ns: string, local: ClusterId, req: Request, clientFor: ClientFactory, parse: KubeconfigParser)
    requires Live(f, local, req)
    ensures var labels := LabelsOf(f, local, req);
      var r := Reconcile(f, ns, local, req, clientFor, parse);
      r.err.None? && (Disabled(labels) || req.name != LocalClusterName) ==>
        LocalSecretIn(r.fleet, local, NamespaceFor(ns, labels))
  {
    ReconcileRegisters(f, ns, local, req, clientFor, parse);
    RegisterLocalSecret(Fetched(f, local, req), NamespaceFor(ns, LabelsOf(f, local, req)), local, req,
                        LabelsOf(f, local, req), clientFor, parse);
  }

  /**
   * After a successful reconcile of a live, enabled HostedCluster whose
   * kubeconfig secret could be read, the hosted secret named after it is in
   * the GitOps namespace; its labels are exactly the HostedCluster's labels
   * with the hyper-ops prefix, type "hosted" and the ArgoCD secret type; its
   * data describes the kubeconfig's first server with a non-empty token and a
   * CA that decodes.
   */
  lemma ReconcileHostedSecret(f: Fleet, ns: string, local: ClusterId, req: Request, clientFor: ClientFactory, parse: KubeconfigParser)
    requires Live(f, local, req) && !Disabled(LabelsOf(f, local, req))
    ensures var labels := LabelsOf(f, local, req);
      var ns' := NamespaceFor(ns, labels);
      var w := RegisterLocal(Fetched(f, local, req), ns', local);
      var kc := Get(w.fleet, local, KubeconfigSecretKey(req));
      var r := Reconcile(f, ns, local, req, clientFor, parse);
      r.err.None? && kc.result.Ok? ==>
        var kubeconfig := DataOf(kc.result.value, "kubeconfig");
        && parse(kubeconfig).Ok? && |parse(kubeconfig).value.clusters| > 0
        && ObjectAt(r.fleet, local, HostedSecretKey(ns', req)).Some?
        && var o := ObjectAt(r.fleet, local, HostedSecretKey(ns', req)).value;
        && (forall k :: k in o.labels <==> (k in labels && HyperOpsLabel <= k) || k == TypeLabel || k == ArgoCDSecretTypeLabel)
        && o.labels[TypeLabel] == "hosted" && o.labels[ArgoCDSecretTypeLabel] == ArgoCDSecretTypeCluster
        && (forall k :: k in o.labels && k != TypeLabel && k != ArgoCDSecretTypeLabel ==> o.labels[k] == labels[k])
        && exists config: ConfigJson.ClusterConfig ::
             && o.body == SecretBody(SecretTypeOpaque, ClusterSecretData(Cluster(req.name, parse(kubeconfig).value.clusters[0].server, config)))
             && |config.bearerToken| > 0
             && Base64Url.Decode(config.caData).Some? && |Base64Url.Decode(config.caData).value| > 0
  {
    var labels := LabelsOf(f, local, req);
    var ns' := NamespaceFor(ns, labels);
    var g := Fetched(f, local, req);
    var w := RegisterLocal(g, ns', local);
    ReconcileRegisters(f, ns, local, req, clientFor, parse);
    assert Register(g, ns', local, req, labels, clientFor, parse).err == w.err
        || Register(g, ns', local, req, labels, clientFor, parse) == RegisterHosted(w.fleet, ns', local, req, labels, clientFor, parse);
    RegisterHostedEffect(w.fleet, ns', local, req, labels, clientFor, parse);
    HostedLabelsExact(labels);
  }
}
