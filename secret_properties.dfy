/**
 * Properties of the ArgoCD cluster secret the controller projects for a cluster
 * (createArgoCDClusterSecret in controllers/hyperops_controller.go).
 */
module ClusterSecretProperties {
  import opened Wrappers
  import opened Bytes
  import opened Kube
  import opened HyperOps
  import Upsert
  import ConfigJson

  /**
   * `o` is the secret ArgoCD reads for `cluster`: the caller's labels plus the
   * ArgoCD secret-type label, type Opaque, and data holding exactly the name,
   * the server and the credentials as JSON.
   */
  predicate ProjectedSecret(o: Object, labels: map<string, string>, cluster: Cluster)
  {
    o.labels == ArgoLabels(labels) && o.body == SecretBody(SecretTypeOpaque, ClusterSecretData(cluster))
  }

  /**
   * The secret's data holds exactly `name`, `server` and `config`: the
   * cluster's name and server, and a JSON text that reads back as the
   * cluster's credentials.
   */
  lemma ClusterSecretDataShape(cluster: Cluster)
    ensures var d := ClusterSecretData(cluster);
      && d.Keys == {"name", "server", "config"}
      && d["name"] == Utf8(cluster.name)
      && d["server"] == Utf8(cluster.server)
      && ConfigJson.Unmarshal(d["config"]) == Some(cluster.config)
  {
    assert "name" != "server" && "name" != "config" by {
      assert |"name"| == 4 && |"server"| == 6 && |"config"| == 6;
    }
    assert "server" != "config" by {
      assert "server"[0] != "config"[0];
    }
    ConfigJson.UnmarshalMarshal(cluster.config);
  }

  /** The secret for `cluster` in `namespace` on cluster `c` is in place. */
  predicate Registered(g: Fleet, c: ClusterId, namespace: string, labels: map<string, string>, cluster: Cluster)
  {
    ObjectAt(g, c, ClusterSecretKey(namespace, cluster)).Some?
    && ProjectedSecret(ObjectAt(g, c, ClusterSecretKey(namespace, cluster)).value, labels, cluster)
  }

  /**
   * Writing the secret touches no other object, changes nothing when it fails,
   * and when it succeeds leaves the projected secret, named after the cluster,
   * in `namespace`, whose `config` reads back as the cluster's credentials.
   */
  lemma ClusterSecretShape(f: Fleet, c: ClusterId, namespace: string, labels: map<string, string>, cluster: Cluster)
    ensures var w := CreateArgoCDClusterSecret(f, c, namespace, labels, cluster);
      var key := ClusterSecretKey(namespace, cluster);
      && key == Key(SecretKind, namespace, cluster.name)
      && SameOutside(f, w.fleet, {(c, key)})
      && (w.err.Some? ==> SameObjects(f, w.fleet))
      && (w.err.None? ==> Registered(w.fleet, c, namespace, labels, cluster))
  {
    var key := ClusterSecretKey(namespace, cluster);
    var m := ClusterSecretMutation(labels, cluster);
    Upsert.RetriesEffect(f, c, key, EmptySecret, m, Upsert.DefaultBackoffSteps, Upsert.Unchanged);
  }

  /** The projected secret is the fixed point of the secret's mutation. */
  lemma ProjectedSecretFixed(o: Object, labels: map<string, string>, cluster: Cluster)
    ensures ProjectedSecret(o, labels, cluster) <==> o == Upsert.Mutate(ClusterSecretMutation(labels, cluster), o)
  {
  }

  /**
   * Writing the secret again, with no fault to meet, writes nothing: the
   * upsert finds the secret as its mutation would leave it and reports
   * Unchanged.
   */
  lemma ClusterSecretSettled(g: Fleet, c: ClusterId, namespace: string, labels: map<string, string>, cluster: Cluster)
    requires NoFaults(g) && c in g && Registered(g, c, namespace, labels, cluster)
    ensures Upsert.CreateOrUpdateWithRetries(g, c, ClusterSecretKey(namespace, cluster), EmptySecret,
              ClusterSecretMutation(labels, cluster)) == Upsert.Outcome(g, Upsert.Unchanged, None, 1)
    ensures CreateArgoCDClusterSecret(g, c, namespace, labels, cluster) == Written(g, None)
  {
    var key := ClusterSecretKey(namespace, cluster);
    var m := ClusterSecretMutation(labels, cluster);
    ProjectedSecretFixed(g[c].objects[key], labels, cluster);
    Upsert.RetriesWithoutFaults(g, c, key, EmptySecret, m, Upsert.DefaultBackoffSteps, Upsert.Unchanged);
  }

  /** With no fault to meet, writing the secret succeeds and keeps the stores free of faults. */
  lemma ClusterSecretWithoutFaults(f: Fleet, c: ClusterId, namespace: string, labels: map<string, string>, cluster: Cluster)
    requires NoFaults(f) && c in f
    ensures var w := CreateArgoCDClusterSecret(f, c, namespace, labels, cluster);
      w.err.None? && NoFaults(w.fleet) && w.fleet.Keys == f.Keys
  {
    var key := ClusterSecretKey(namespace, cluster);
    var m := ClusterSecretMutation(labels, cluster);
    Upsert.RetriesWithoutFaults(f, c, key, EmptySecret, m, Upsert.DefaultBackoffSteps, Upsert.Unchanged);
  }
}
