/**
 * What one reconcile of a HostedCluster does (controllers/hyperops_controller.go),
 * as functions of the stores: the fixed identity the controller bootstraps on a
 * cluster, the ArgoCD cluster secret it projects, the label filter, the event
 * filter, and the reconcile decision itself.
 */
module HyperOps {
  import opened Wrappers
  import opened Bytes
  import opened Kube
  import Upsert
  import Base64Url
  import ConfigJson

  const HyperOpsLabel := "hyper-ops.cloudmonkey.org"
  const EnabledLabel := HyperOpsLabel + "/enabled"
  const GitOpsNamespaceLabel := HyperOpsLabel + "/gitops-namespace"
  const TypeLabel := "hyper-ops.cloudmonkey.org/type"
  const DefaultGitOpsNamespace := "openshift-gitops"

  const ArgoCDSecretTypeLabel := "argocd.argoproj.io/secret-type"
  const ArgoCDSecretTypeCluster := "cluster"

  const ServiceAccountName := "hyper-ops-admin"
  const ServiceAccountNamespace := "kube-system"
  const TokenSecretName := ServiceAccountName + "-token"
  /** `corev1.ServiceAccountNameKey`. */
  const ServiceAccountNameKey := "kubernetes.io/service-account.name"
  /** `corev1.SecretTypeServiceAccountToken` and `corev1.SecretTypeOpaque`. */
  const SecretTypeServiceAccountToken := "kubernetes.io/service-account-token"
  const SecretTypeOpaque := "Opaque"

  /** How the controller registers the cluster it runs in. */
  const LocalServer := "https://kubernetes.default.svc"
  const LocalClusterName := "in-cluster-local"

  /** A cluster as ArgoCD is told about it: its secret's name, its API server and its credentials. */
  datatype Cluster = Cluster(name: string, server: string, config: ConfigJson.ClusterConfig)

  // ---------------------------------------------------------------------------
  // Bootstrapping the controller's identity on a cluster (setupClusterConfig)

  const ServiceAccountKey := Key(ServiceAccountKind, ServiceAccountNamespace, ServiceAccountName)
  /** ClusterRoleBindings are cluster scoped. */
  const BindingKey := Key(ClusterRoleBindingKind, "", ServiceAccountName)
  const TokenSecretKey := Key(SecretKind, ServiceAccountNamespace, TokenSecretName)

  const ServiceAccountObject := Object(map[], map[], false, ServiceAccountBody)
  /** Binds the service account to the `cluster-admin` ClusterRole. */
  const BindingObject := Object(map[], map[], false, ClusterRoleBindingBody(
    [Subject("ServiceAccount", ServiceAccountName, ServiceAccountNamespace)],
    RoleRef("ClusterRole", "cluster-admin", "rbac.authorization.k8s.io")))
  /** A token secret for the service account; the cluster fills in its `token` and `ca.crt`. */
  const TokenSecretObject := Object(map[], map[ServiceAccountNameKey := ServiceAccountName], false,
    SecretBody(SecretTypeServiceAccountToken, map[]))

  /** The stores after a write, and its error if any. */
  datatype Written = Written(fleet: Fleet, err: Option<Error>)

  /** The stores after bootstrapping, and the cluster description or the error. */
  datatype Setup = Setup(fleet: Fleet, result: Result<Cluster, Error>)

  /** The credentials read back from the token secret: the token as is, the CA in base64url. */
  function Credentials(token: Object): ConfigJson.ClusterConfig
  {
    ConfigJson.ClusterConfig(DataOf(token, "token"), Base64Url.Encode(DataOf(token, "ca.crt")))
  }

  /**
   * Ensures the service account, the cluster role binding and the token secret,
   * in that order and each with a no-op mutation, stopping at the first error.
   */
  function EnsureIdentity(f: Fleet, c: ClusterId): Written
  {
    var sa := Upsert.CreateOrUpdateWithRetries(f, c, ServiceAccountKey, ServiceAccountObject, Upsert.NoOp);
    if sa.err.Some? then Written(sa.fleet, sa.err)
    else
      var crb := Upsert.CreateOrUpdateWithRetries(sa.fleet, c, BindingKey, BindingObject, Upsert.NoOp);
      if crb.err.Some? then Written(crb.fleet, crb.err)
      else
        var tok := Upsert.CreateOrUpdateWithRetries(crb.fleet, c, TokenSecretKey, TokenSecretObject, Upsert.NoOp);
        Written(tok.fleet, tok.err)
  }

  /**
   * Reads the token secret back and describes the cluster `name` at `server`
   * with the token and the CA found there, failing when either is empty.
   */
  function DescribeCluster(f: Fleet, c: ClusterId, server: string, name: string): Setup
  {
    var got := Get(f, c, TokenSecretKey);
    if got.result.Err? then Setup(got.fleet, Err(Api(got.result.error)))
    else if |DataOf(got.result.value, "token")| == 0 then Setup(got.fleet, Err(TokenNotFound))
    else if |DataOf(got.result.value, "ca.crt")| == 0 then Setup(got.fleet, Err(CaCertNotFound))
    else Setup(got.fleet, Ok(Cluster(name, server, Credentials(got.result.value))))
  }

  /** Bootstraps the controller's identity on cluster `c` and describes the cluster. */
  function SetupClusterConfig(f: Fleet, c: ClusterId, server: string, name: string): (r: Setup)
    ensures r.result.Ok? ==> r.result.value.name == name && r.result.value.server == server
  {
    var id := EnsureIdentity(f, c);
    if id.err.Some? then Setup(id.fleet, Err(id.err.value)) else DescribeCluster(id.fleet, c, server, name)
  }

  // ---------------------------------------------------------------------------
  // The ArgoCD cluster secret (createArgoCDClusterSecret)

  function ClusterSecretKey(namespace: string, cluster: Cluster): Key
  {
    Key(SecretKind, namespace, cluster.name)
  }

  /** The caller's labels with the one ArgoCD looks for added. */
  function ArgoLabels(labels: map<string, string>): map<string, string>
  {
    labels[ArgoCDSecretTypeLabel := ArgoCDSecretTypeCluster]
  }

  /** The secret's data: the cluster's name and server, and its credentials as JSON. */
  function ClusterSecretData(cluster: Cluster): map<string, seq<byte>>
  {
    map["name" := Utf8(cluster.name), "server" := Utf8(cluster.server), "config" := ConfigJson.Marshal(cluster.config)]
  }

  /** The mutation applied to the secret: labels, data and type replaced; annotations kept. */
  function ClusterSecretMutation(labels: map<string, string>, cluster: Cluster): Upsert.Mutation
  {
    Upsert.SetSecret(ArgoLabels(labels), ClusterSecretData(cluster), SecretTypeOpaque)
  }

  /** A secret with nothing but its name and namespace set. */
  const EmptySecret := Object(map[], map[], false, SecretBody("", map[]))

  /** Upserts the secret named after the cluster in `namespace` through client `c`. */
  function CreateArgoCDClusterSecret(f: Fleet, c: ClusterId, namespace: string, labels: map<string, string>, cluster: Cluster): (r: Written)
    ensures r.err.Some? ==> (r.err.value.Api? && r.err.value != Api(Conflict)) || r.err.value == WaitTimeout
  {
    Upsert.RetriesErrorKinds(f, c, ClusterSecretKey(namespace, cluster), EmptySecret,
      ClusterSecretMutation(labels, cluster), Upsert.DefaultBackoffSteps, Upsert.Unchanged);
    var o := Upsert.CreateOrUpdateWithRetries(f, c, ClusterSecretKey(namespace, cluster), EmptySecret,
      ClusterSecretMutation(labels, cluster));
    Written(o.fleet, o.err)
  }

  // ---------------------------------------------------------------------------
  // Labels and events

  /** The labels whose key starts with `hyper-ops.cloudmonkey.org` (no separator required). */
  function HyperOpsLabels(labels: map<string, string>): (r: map<string, string>)
    ensures forall k :: k in r <==> k in labels && HyperOpsLabel <= k
    ensures forall k :: k in r ==> r[k] == labels[k]
  {
    map k | k in labels && HyperOpsLabel <= k :: labels[k]
  }

  /** The labels of the hosted cluster's secret. */
  function HostedLabels(labels: map<string, string>): map<string, string>
  {
    HyperOpsLabels(labels)[TypeLabel := "hosted"]
  }

  /** The labels of the local cluster's secret. */
  const LocalLabels: map<string, string> := map[TypeLabel := "local"]

  /** The watch events of a HostedCluster. */
  datatype Event =
    | CreateEvent(object: Object)
    | UpdateEvent(objectOld: Object, objectNew: Object)
    | DeleteEvent(object: Object)
    | GenericEvent(object: Object)

  /**
   * The event filter: create and update events pass only when the object
   * (the new one, for an update) carries the enabled label, whatever its value;
   * delete and generic events have no filter function and pass.
   */
  function Admit(e: Event): (r: bool)
    ensures !r ==> e.CreateEvent? || e.UpdateEvent?
  {
    match e
    case CreateEvent(o) => EnabledLabel in o.labels
    case UpdateEvent(_, o) => EnabledLabel in o.labels
    case DeleteEvent(_) => true
    case GenericEvent(_) => true
  }

  // ---------------------------------------------------------------------------
  // Reconcile

  /** The parsed kubeconfig, as far as the controller reads it: the clusters' servers in order. */
  datatype KubeconfigCluster = KubeconfigCluster(name: string, server: string)
  datatype Kubeconfig = Kubeconfig(clusters: seq<KubeconfigCluster>)

  /** Builds a client from kubeconfig bytes (`GetClientForCluster`). */
  type ClientFactory = seq<byte> -> Result<ClusterId, string>
  /** Parses kubeconfig bytes. */
  type KubeconfigParser = seq<byte> -> Result<Kubeconfig, string>

  /** The server of the kubeconfig's first cluster (getServerFromKubeConfig). */
  function ServerFromKubeconfig(parsed: Result<Kubeconfig, string>): (r: Result<string, Error>)
    ensures r.Ok? <==> parsed.Ok? && |parsed.value.clusters| > 0
    ensures r.Ok? ==> r.value == parsed.value.clusters[0].server
    ensures parsed.Err? ==> r == Err(KubeconfigError(parsed.error))
  {
    if parsed.Err? then Err(KubeconfigError(parsed.error))
    else if parsed.value.clusters == [] then Err(NoClusterEntry)
    else Ok(parsed.value.clusters[0].server)
  }

  /** `reconcile.Request`: the namespace and name of a HostedCluster. */
  datatype Request = Request(namespace: string, name: string)

  function HostedClusterKey(req: Request): Key
  {
    Key(HostedClusterKind, req.namespace, req.name)
  }

  /** Where hypershift keeps the admin kubeconfig of a hosted cluster. */
  function KubeconfigSecretKey(req: Request): Key
  {
    Key(SecretKind, req.namespace, req.name + "-admin-kubeconfig")
  }

  /** The stores, the GitOps namespace and the error after a reconcile. */
  datatype Reconciled = Reconciled(fleet: Fleet, namespace: string, err: Option<Error>)

  /** The GitOps namespace after looking at a HostedCluster's labels: overridden by the label, else kept. */
  function NamespaceFor(namespace: string, labels: map<string, string>): string
  {
    if GitOpsNamespaceLabel in labels then labels[GitOpsNamespaceLabel] else namespace
  }

  /** The HostedCluster turns off its own registration with `enabled: "false"`. */
  predicate Disabled(labels: map<string, string>)
  {
    EnabledLabel in labels && labels[EnabledLabel] == "false"
  }

  /**
   * A reconcile through the local client `local`, with the GitOps namespace
   * `namespace` left by earlier reconciles: a HostedCluster that is gone is
   * not an error; one being deleted has its ArgoCD secret deleted (a secret
   * already gone is not an error); any other one is registered.
   */
  function Reconcile(f: Fleet, namespace: string, local: ClusterId, req: Request,
                     clientFor: ClientFactory, parse: KubeconfigParser): (r: Reconciled)
    ensures var hc := ObjectAt(f, local, HostedClusterKey(req));
      r.namespace != namespace ==>
        hc.Some? && !hc.value.deleting && GitOpsNamespaceLabel in hc.value.labels
        && r.namespace == hc.value.labels[GitOpsNamespaceLabel]
  {
    GetEffect(f, local, HostedClusterKey(req));
    var hc := Get(f, local, HostedClusterKey(req));
    if hc.result.Err? then Reconciled(hc.fleet, namespace, IgnoreNotFound(hc.result.error))
    else if hc.result.value.deleting then
      var d := Delete(hc.fleet, local, Key(SecretKind, namespace, req.name));
      Reconciled(d.fleet, namespace, if d.result.Err? then IgnoreNotFound(d.result.error) else None)
    else
      Register(hc.fleet, NamespaceFor(namespace, hc.result.value.labels), local, req, hc.result.value.labels, clientFor, parse)
  }

  /**
   * Registers the local cluster, then, unless the HostedCluster is disabled,
   * the hosted one; the namespace override is already in effect.
   */
  function Register(f: Fleet, namespace: string, local: ClusterId, req: Request, labels: map<string, string>,
                    clientFor: ClientFactory, parse: KubeconfigParser): (r: Reconciled)
    ensures r.namespace == namespace
  {
    var w := RegisterLocal(f, namespace, local);
    if w.err.Some? || Disabled(labels) then Reconciled(w.fleet, namespace, w.err)
    else RegisterHosted(w.fleet, namespace, local, req, labels, clientFor, parse)
  }

  /** Bootstraps the local cluster and writes its ArgoCD secret. */
  function RegisterLocal(f: Fleet, namespace: string, local: ClusterId): (r: Written)
    ensures local !in f ==> r == Written(f, Some(Api(Unreachable)))
  {
    Upsert.RetriesUnreachable(f, local, ServiceAccountKey, ServiceAccountObject, Upsert.NoOp,
      Upsert.DefaultBackoffSteps, Upsert.Unchanged);
    var s := SetupClusterConfig(f, local, LocalServer, LocalClusterName);
    if s.result.Err? then Written(s.fleet, Some(s.result.error))
    else CreateArgoCDClusterSecret(s.fleet, local, namespace, LocalLabels, s.result.value)
  }

  /**
   * Reads the hosted cluster's kubeconfig (a missing one is not an error),
   * bootstraps the hosted cluster through a client built from it, and writes
   * its ArgoCD secret, through the local client, labelled with the
   * HostedCluster's hyper-ops labels. A HostedCluster without labels has a
   * nil label map, and adding the type label to it fails (`NilLabels`)
   * before the secret is written.
   */
  function RegisterHosted(f: Fleet, namespace: string, local: ClusterId, req: Request, labels: map<string, string>,
                          clientFor: ClientFactory, parse: KubeconfigParser): (r: Reconciled)
    ensures r.namespace == namespace
  {
    var kc := Get(f, local, KubeconfigSecretKey(req));
    if kc.result.Err? then Reconciled(kc.fleet, namespace, IgnoreNotFound(kc.result.error))
    else
      var kubeconfig := DataOf(kc.result.value, "kubeconfig");
      var hosted := clientFor(kubeconfig);
      if hosted.Err? then Reconciled(kc.fleet, namespace, Some(ClientError(hosted.error)))
      else
        var server := ServerFromKubeconfig(parse(kubeconfig));
        if server.Err? then Reconciled(kc.fleet, namespace, Some(server.error))
        else
          var s := SetupClusterConfig(kc.fleet, hosted.value, server.value, req.name);
          if s.result.Err? then Reconciled(s.fleet, namespace, Some(s.result.error))
          else if labels == map[] then Reconciled(s.fleet, namespace, Some(NilLabels))
          else
            var w := CreateArgoCDClusterSecret(s.fleet, local, namespace, HostedLabels(labels), s.result.value);
            Reconciled(w.fleet, namespace, w.err)
  }
}
