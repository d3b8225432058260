/**
 * The HostedCluster reconciler as the controller runs it: an object holding the
 * GitOps namespace, which each reconcile may change and which later reconciles
 * see, and a client whose calls update the stores in place. Each method is
 * proved to leave exactly the state the functions of module HyperOps describe.
 */
module HyperOpsController {
  import opened Wrappers
  import opened Kube
  import opened KubeClient
  import opened HyperOps
  import Upsert
  import Utils
  import Base64Url
  import ConfigJson

  /**
   * Deletes, one key at a time, every label whose key does not start with
   * `hyper-ops.cloudmonkey.org`.
   */
  method KeepHyperOpsLabels(labels: map<string, string>) returns (kept: map<string, string>)
    ensures forall k :: k in kept <==> k in labels && HyperOpsLabel <= k
    ensures forall k :: k in kept ==> kept[k] == labels[k]
    ensures kept == HyperOpsLabels(labels)
  {
    kept := labels;
    var keys := labels.Keys;
    while keys != {}
      invariant keys <= labels.Keys
      invariant forall k :: k in kept <==> k in labels && (k in keys || HyperOpsLabel <= k)
      invariant forall k :: k in kept ==> kept[k] == labels[k]
      decreases keys
    {
      var k :| k in keys;
      if !(HyperOpsLabel <= k) {
        kept := kept - {k};
      }
      keys := keys - {k};
    }
  }

  class HyperOpsReconciler {
    /** The namespace ArgoCD secrets are written to; the last override seen sticks. */
    var gitOpsNamespace: string
    /** The stores of every cluster. */
    const clusters: Clusters
    /** The reconciler's own client, for the cluster it runs in. */
    const client: ClusterId

    constructor(clusters: Clusters, client: ClusterId)
      ensures gitOpsNamespace == DefaultGitOpsNamespace
      ensures this.clusters == clusters && this.client == client
    {
      gitOpsNamespace := DefaultGitOpsNamespace;
      this.clusters := clusters;
      this.client := client;
    }

    /** Bootstraps the controller's identity through `clnt` and describes the cluster as `name` at `server`. */
    method SetupClusterConfig(clnt: ClusterId, server: string, name: string) returns (cluster: Result<Cluster, Error>)
      modifies clusters
      ensures var s := HyperOps.SetupClusterConfig(old(clusters.stores), clnt, server, name);
        clusters.stores == s.fleet && cluster == s.result
    {
      var op, err := Utils.CreateOrUpdateWithRetries(clusters, clnt, ServiceAccountKey, ServiceAccountObject, Upsert.NoOp);
      if err.Some? {
        return Err(err.value);
      }
      op, err := Utils.CreateOrUpdateWithRetries(clusters, clnt, BindingKey, BindingObject, Upsert.NoOp);
      if err.Some? {
        return Err(err.value);
      }
      op, err := Utils.CreateOrUpdateWithRetries(clusters, clnt, TokenSecretKey, TokenSecretObject, Upsert.NoOp);
      if err.Some? {
        return Err(err.value);
      }
      var got := clusters.Get(clnt, TokenSecretKey);
      if got.Err? {
        return Err(Api(got.error));
      }
      var token := DataOf(got.value, "token");
      if |token| == 0 {
        return Err(TokenNotFound);
      }
      var ca := DataOf(got.value, "ca.crt");
      if |ca| == 0 {
        return Err(CaCertNotFound);
      }
      return Ok(Cluster(name, server, ConfigJson.ClusterConfig(token, Base64Url.Encode(ca))));
    }

    /** Upserts the ArgoCD secret for `cluster` in the current GitOps namespace, through the reconciler's client. */
    method CreateArgoCDClusterSecret(labels: map<string, string>, cluster: Cluster) returns (err: Option<Error>)
      modifies clusters
      ensures var w := HyperOps.CreateArgoCDClusterSecret(old(clusters.stores), client, gitOpsNamespace, labels, cluster);
        clusters.stores == w.fleet && err == w.err
    {
      var argocdClusterLabels := labels[ArgoCDSecretTypeLabel := ArgoCDSecretTypeCluster];
      var jsonConfig := ConfigJson.Marshal(cluster.config);
      var data := map["name" := Bytes.Utf8(cluster.name), "server" := Bytes.Utf8(cluster.server), "config" := jsonConfig];
      var op;
      op, err := Utils.CreateOrUpdateWithRetries(clusters, client, Key(SecretKind, gitOpsNamespace, cluster.name), EmptySecret,
        Upsert.SetSecret(argocdClusterLabels, data, SecretTypeOpaque));
    }

    /** Bootstraps the cluster the reconciler runs in and registers it with ArgoCD. */
    method RegisterLocal() returns (err: Option<Error>)
      modifies clusters
      ensures var w := HyperOps.RegisterLocal(old(clusters.stores), gitOpsNamespace, client);
        clusters.stores == w.fleet && err == w.err
    {
      var localCluster := SetupClusterConfig(client, LocalServer, LocalClusterName);
      if localCluster.Err? {
        return Some(localCluster.error);
      }
      err := CreateArgoCDClusterSecret(LocalLabels, localCluster.value);
    }

    /** Bootstraps the hosted cluster through its admin kubeconfig and registers it with ArgoCD. */
    method RegisterHosted(req: Request, labels: map<string, string>, clientFor: ClientFactory, parse: KubeconfigParser)
      returns (err: Option<Error>)
      modifies clusters
      ensures var r := HyperOps.RegisterHosted(old(clusters.stores), gitOpsNamespace, client, req, labels, clientFor, parse);
        clusters.stores == r.fleet && err == r.err
    {
      var kubeConfigSecret := clusters.Get(client, KubeconfigSecretKey(req));
      if kubeConfigSecret.Err? {
        return IgnoreNotFound(kubeConfigSecret.error);
      }
      var kubeconfig := DataOf(kubeConfigSecret.value, "kubeconfig");
      var hostedClusterClient := clientFor(kubeconfig);
      if hostedClusterClient.Err? {
        return Some(ClientError(hostedClusterClient.error));
      }
      var server := ServerFromKubeconfig(parse(kubeconfig));
      if server.Err? {
        return Some(server.error);
      }
      var hostedClusterConfig := SetupClusterConfig(hostedClusterClient.value, server.value, req.name);
      if hostedClusterConfig.Err? {
        return Some(hostedClusterConfig.error);
      }
      var hostedClusterLabels := KeepHyperOpsLabels(labels);
      if labels == map[] {
        return Some(NilLabels);
      }
      hostedClusterLabels := hostedClusterLabels[TypeLabel := "hosted"];
      err := CreateArgoCDClusterSecret(hostedClusterLabels, hostedClusterConfig.value);
    }

    /** One reconcile of the HostedCluster `req`; `clientFor` and `parse` stand for client construction and YAML parsing. */
    method Reconcile(req: Request, clientFor: ClientFactory, parse: KubeconfigParser) returns (err: Option<Error>)
      modifies this, clusters
      ensures var r := HyperOps.Reconcile(old(clusters.stores), old(gitOpsNamespace), client, req, clientFor, parse);
        clusters.stores == r.fleet && gitOpsNamespace == r.namespace && err == r.err
    {
      var hc := clusters.Get(client, HostedClusterKey(req));
      if hc.Err? {
        return IgnoreNotFound(hc.error);
      }
      if hc.value.deleting {
        var deleted := clusters.Delete(client, Key(SecretKind, gitOpsNamespace, req.name));
        if deleted.Err? {
          return IgnoreNotFound(deleted.error);
        }
        return None;
      }
      var labels := hc.value.labels;
      if GitOpsNamespaceLabel in labels {
        gitOpsNamespace := labels[GitOpsNamespaceLabel];
      }
      ghost var registering := clusters.stores;
      err := RegisterLocal();
      ghost var local := HyperOps.RegisterLocal(registering, gitOpsNamespace, client);
      assert clusters.stores == local.fleet && err == local.err;
      if err.Some? {
        return err;
      }
      if Disabled(labels) {
        return None;
      }
      ghost var hosting := clusters.stores;
      err := RegisterHosted(req, labels, clientFor, parse);
      ghost var hosted := HyperOps.RegisterHosted(hosting, gitOpsNamespace, client, req, labels, clientFor, parse);
      assert clusters.stores == hosted.fleet && err == hosted.err;
    }
  }
}
