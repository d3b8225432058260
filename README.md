# hyper-ops HostedCluster controller, modelled in Dafny

hyper-ops registers every HyperShift `HostedCluster` it is told about
(through the label `hyper-ops.cloudmonkey.org/enabled`) with ArgoCD. This
project models the controller's reconcile logic and its create-or-update
retry helper. The API servers are modelled as an in-memory object store per
cluster.

Each reconcile reads the HostedCluster.
- A HostedCluster that is gone is not an error.
- One being deleted has the ArgoCD secret named after it deleted from the
  current GitOps namespace.
- Any other one is registered in these steps:
  1. The `gitops-namespace` label, when present, becomes the GitOps namespace
     for this and all later reconciles.
  2. The controller bootstraps its own identity in the cluster it runs in:
     the ServiceAccount `kube-system/hyper-ops-admin`, a `cluster-admin`
     ClusterRoleBinding, and the token Secret `hyper-ops-admin-token`. It
     reads the token and the CA back from that secret.
  3. It writes the ArgoCD cluster secret `in-cluster-local` for server
     `https://kubernetes.default.svc`.
  4. Unless the HostedCluster says `enabled: "false"`, it reads the hosted
     cluster's `<name>-admin-kubeconfig` secret and bootstraps the same
     identity in the hosted cluster. It then writes the hosted cluster's
     ArgoCD secret, labelled with the HostedCluster's `hyper-ops.cloudmonkey.org*`
     labels. A kubeconfig secret that is missing is not an error.

Every create or update goes through `CreateOrUpdateWithRetries`:
controller-runtime's create-or-update, repeated under the default backoff
while it reports a conflict. The deletion of a HostedCluster being deleted
is a single direct `Delete` call, with no retry.

Modules, in dependency order:

- `Wrappers`, `Bytes`: `Option`/`Result`, octets and Go's `[]byte(s)` (UTF-8).
- `Base64Url`: padded base64 with the URL-safe alphabet of section 5 of
  RFC 4648, with a decoder, a round-trip proof, its length and its alphabet.
- `ConfigJson`: the `{bearerToken, tlsClientConfig: {caData}}` record, its
  JSON text, and a reader proved to invert it.
- `Kube`: the tools for the stores.
  - Objects keyed by kind, namespace and name, one store per cluster.
  - The four client calls as functions.
  - An injectable script of API errors per store (conflicts, server errors),
    so that every error path can be reached.
  - A client for a cluster that is not in the fleet fails `Unreachable`.
  - `NoFaults` says no errors are scripted.
- `KubeClient`: class `Clusters`, whose methods update the stores in place.
- `Upsert`: `controllerutil.CreateOrUpdate` and the retry loop as functions,
  with their properties.
- `Utils`: the same two as methods on `Clusters`, the retry loop as a
  `while` loop. Each is proved equal to its `Upsert` function.
- `HyperOps`: constants, labels, the event filter, the ArgoCD secret, the
  bootstrap and the reconcile, as functions of the stores and the GitOps
  namespace.
- `HyperOpsController`: class `HyperOpsReconciler`.
  - It holds `gitOpsNamespace` (a package variable in the source) as a field
    that reconciles update and later reconciles read.
  - Its methods perform the reconcile on `Clusters`, and each is proved equal
    to its `HyperOps` function.
  - The label filter is the in-place deletion loop of the source.
- `SetupProperties`, `ClusterSecretProperties`, `ReconcileProperties`,
  `ReconcileIdempotence`: the lemmas about the functions.

Where the model follows the code rather than what one might expect:

- The namespace override happens before the local cluster is registered. It
  is never reset when a later HostedCluster lacks the label.
- The label prefix test uses `hyper-ops.cloudmonkey.org` with no trailing
  slash, so `hyper-ops.cloudmonkey.org-extra` is kept
  (`ReconcileProperties.PrefixWithoutSeparator`).
- The event filter tests only that the enabled label is present. Reconcile
  itself never checks this: it stops only at `enabled: "false"`.
- A missing kubeconfig secret ends the reconcile with success, after the
  local registration.
- The deletion path deletes the secret in the namespace current at deletion
  time. That may not be the namespace the secret was written to.
- The source reads `Clusters[0]` of the parsed kubeconfig without a check,
  which panics on a kubeconfig with no cluster. The model returns the error
  `NoClusterEntry` there instead.
- The source writes `hostedClusterLabels["hyper-ops.cloudmonkey.org/type"]`
  into the map returned by `GetLabels()`. That map is nil for a HostedCluster
  without labels, so the assignment panics and no hosted secret is written.
  The model returns the error `NilLabels` there, after the hosted bootstrap
  and before the secret
  (`ReconcileProperties.RegisterHostedNoLabels`).
- A HostedCluster named `in-cluster-local` overwrites the local secret.
- A HostedCluster named `hyper-ops-admin-token`, with GitOps namespace
  `kube-system`, makes the controller upsert its ArgoCD secret onto the local
  token secret. A real API server rejects that update, because the mutation
  changes the secret's immutable `type` to `Opaque`. The error is not a
  conflict, so the reconcile fails with it.
- The model's stores do not enforce immutable fields, so the model overwrites
  the token secret instead. The lemmas exclude each collision only where it
  matters to them:
  - The `in-cluster-local` collision is excluded by
    `ReconcileProperties.RegisterLocalSecret` and
    `ReconcileProperties.ReconcileLocalSecret`.
  - The token-secret collision is excluded by
    `ReconcileProperties.SetupThenSecret`,
    `ReconcileProperties.RegisterHostedCredentials` and
    `ReconcileIdempotence.HostedEstablished`.
  - `ReconcileIdempotence.RegisterIdempotent`,
    `ReconcileIdempotence.HostedRegisterIdempotent` and
    `ReconcileIdempotence.ReconcileIdempotent` exclude both. With either
    collision, a second registration writes again: the local secret and then
    the hosted one, or the token secret and then the hosted one.

`clientFor`, a function from kubeconfig bytes to a cluster id or an error,
stands for `GetClientForCluster`. `parse` stands for the YAML parsing of the
kubeconfig. Both are parameters of the reconcile.

## Model

| member | source | states |
|---|---|---|
| Kube.GetEffect | controllers/hyperops_controller.go:86-89 | A read changes no object; it returns the stored object or NotFound, and a cluster that cannot be reached answers Unreachable. |
| Kube.CreateEffect | controllers/utils.go:27 | A successful create stores the object at a key that was free and touches nothing else; a failed one changes nothing; with no fault it fails exactly when the key is taken. |
| Kube.UpdateEffect | controllers/utils.go:27 | A successful update replaces an existing object and touches nothing else; a failed one changes nothing; with no fault it fails exactly when there is nothing to update. |
| Kube.DeleteEffect | controllers/hyperops_controller.go:94-101 | A successful delete removes an existing object and nothing else; with no fault it removes the object, or fails NotFound when there is none. |
| KubeClient.Clusters.Get | controllers/hyperops_controller.go:86 | The stores and the answer after the call are those of the Get function. |
| KubeClient.Clusters.Create | controllers/utils.go:27 | The stores and the answer after the call are those of the Create function. |
| KubeClient.Clusters.Update | controllers/utils.go:27 | The stores and the answer after the call are those of the Update function. |
| KubeClient.Clusters.Delete | controllers/hyperops_controller.go:94 | The stores and the answer after the call are those of the Delete function. |
| Upsert.MutateIdempotent | controllers/hyperops_controller.go:213-222 | Every mutate function the controller passes sets fields to fixed values, so applying it twice is applying it once. |
| Upsert.CreateOrUpdate | controllers/utils.go:27 | A create-or-update attempt that fails reports Unchanged, and its error is always an error from the API server. |
| Upsert.Retries | controllers/utils.go:26-39 | The backoff loop makes at most its budget of attempts and never returns a conflict: a conflict is retried, and running out gives the timeout. |
| Upsert.AttemptEffect | controllers/utils.go:27 | One create-or-update creates a missing object (Created), writes nothing when the mutation leaves it unchanged (Unchanged), updates it otherwise (Updated), reports Unchanged on every error and changes nothing then, and never touches another object. |
| Upsert.AttemptWithoutFaults | controllers/utils.go:27 | With no fault, an attempt succeeds and leaves the mutated object in place, with the operation result read off the stored object. |
| Upsert.RetriesStep | controllers/utils.go:26-38 | Success or a non-conflict error after the first attempt stops the loop with that attempt's stores, result and error; a conflict makes the rest of the loop start from what the attempt left and read. |
| Upsert.RetriesToward | controllers/utils.go:26-38 | The same step measured against a fixed final outcome: an attempt that does not conflict is that outcome, and one that conflicts leaves the remaining attempts heading for it. |
| Upsert.RetriesEffect | controllers/utils.go:26-39 | The loop makes between one and `steps` attempts and never returns a conflict. Running out gives the timeout, and only after the last allowed attempt. Every error reports Unchanged and leaves every object as it was. Success leaves the mutation applied. No other object is touched. |
| Upsert.RetriesWithoutFaults | controllers/utils.go:26-39 | With no fault, one attempt suffices and its outcome is exactly the upserted stores with the expected operation result. |
| Upsert.RetriesAfterOneConflict | controllers/utils.go:32-37 | A first attempt that loses to a conflict is retried, and if nothing else goes wrong the second attempt succeeds with the mutation applied. |
| Upsert.RetriesIdempotent | controllers/utils.go:19-40 | With no fault, repeating an upsert against what the first one left writes nothing, succeeds and reports Unchanged. |
| Upsert.NoOpExtends | controllers/hyperops_controller.go:248-250 | An upsert with the no-op mutation only ever adds the missing object; no existing object changes. |
| Upsert.NoOpNeverUpdates | controllers/hyperops_controller.go:248-250 | An upsert with the no-op mutation never reports Updated. |
| Upsert.RetriesErrorKinds | controllers/utils.go:32-37 | The loop fails only with a non-conflict API error or with the timeout. |
| Upsert.RetriesUnreachable | controllers/utils.go:27-35 | Against a cluster that cannot be reached, the first attempt fails, the loop stops, and nothing changes. |
| Utils.CreateOrUpdate | controllers/utils.go:27 | The method leaves the stores, the in-memory object, the result and the error that the create-or-update function describes. |
| Utils.RetryTurn | controllers/utils.go:26-38 | One pass of the backoff loop body: when the attempt does not conflict, its stores, result and error are the outcome the whole loop was heading for; when it conflicts, the remaining attempts, starting from what it left, still lead to that outcome. |
| Utils.CreateOrUpdateWithRetries | controllers/utils.go:19-40 | The loop, starting from the zero operation result with the default budget of four steps, leaves the stores, the result and the error of the retry function. |
| Bytes.Utf8Length | controllers/hyperops_controller.go:216-217 | Go's `[]byte(s)` takes at least one and at most four bytes per character. |
| Bytes.Utf8Ascii | controllers/hyperops_controller.go:216-217 | An ASCII string converts byte for byte: the same length, and each byte is the character's code. |
| Bytes.Utf8Append | controllers/hyperops_controller.go:216-217 | Converting a concatenation gives the concatenation of the conversions. |
| Base64Url.Encode | controllers/hyperops_controller.go:321 | The padded encoding always consists of whole groups of four bytes. |
| Base64Url.SymbolValue | controllers/hyperops_controller.go:321 | A byte decodes to a 6-bit value only if encoding that value gives the byte back. |
| Base64Url.DecodeEncode | controllers/hyperops_controller.go:321 | Decoding the base64url text of any bytes gives those bytes back. |
| Base64Url.EncodeLength | controllers/hyperops_controller.go:321 | The encoded text is four bytes for every started group of three input bytes. |
| Base64Url.EncodeAlphabet | controllers/hyperops_controller.go:321 | The encoded text holds only URL-safe alphabet characters and `=`. |
| ConfigJson.Marshal | controllers/hyperops_controller.go:202 | The JSON text always opens with `{"bearerToken":` and ends with `}}`, the close of `tlsClientConfig` and of the record. |
| ConfigJson.UnmarshalMarshal | controllers/hyperops_controller.go:202 | The JSON text of a cluster config reads back as that config, bearer token and CA data alike. |
| HyperOps.HyperOpsLabels | controllers/hyperops_controller.go:155-161 | The kept labels are exactly those whose key starts with `hyper-ops.cloudmonkey.org`, with their values. |
| HyperOps.ServerFromKubeconfig | controllers/hyperops_controller.go:231-237 | The server is found exactly when the kubeconfig parsed and lists a cluster, and it is the first cluster's server; a parse error is returned as such. |
| HyperOps.Admit | controllers/hyperops_controller.go:175-191 | Only create and update events are ever filtered out; delete and generic events always pass. The exact condition is ReconcileProperties.AdmitOnEnabledKey. |
| HyperOps.Reconcile | controllers/hyperops_controller.go:82-169 | The GitOps namespace changes only when a live HostedCluster has the `gitops-namespace` label, and then it becomes that label's value. |
| HyperOps.SetupClusterConfig | controllers/hyperops_controller.go:239-326 | A successful bootstrap describes the cluster under the name and server it was given. |
| HyperOps.CreateArgoCDClusterSecret | controllers/hyperops_controller.go:196-229 | Writing the ArgoCD secret fails only with an API error that is not a conflict, or with the timeout. |
| HyperOps.RegisterLocal | controllers/hyperops_controller.go:110-124 | When the local cluster cannot be reached, the local registration changes nothing and fails Unreachable. |
| HyperOps.Register | controllers/hyperops_controller.go:110-168 | Registration of a live HostedCluster keeps the GitOps namespace it was handed, after the override. Its effects on the stores are stated by ReconcileProperties.RegisterOrder, RegisterHostedEffect and RegisterHostedNoLabels. A HostedCluster without labels ends with NilLabels where the source panics. |
| HyperOps.RegisterHosted | controllers/hyperops_controller.go:131-168 | The hosted step never changes the GitOps namespace. Its effects on the stores are stated by ReconcileProperties.RegisterHostedEffect, and by RegisterHostedNoLabels for a HostedCluster without labels, which ends with NilLabels where the source panics. |
| HyperOpsController.KeepHyperOpsLabels | controllers/hyperops_controller.go:155-161 | The deletion loop keeps exactly the labels with the hyper-ops prefix, with their values. |
| HyperOpsController.HyperOpsReconciler.constructor | controllers/hyperops_controller.go:55 | The GitOps namespace starts as `openshift-gitops`. |
| HyperOpsController.HyperOpsReconciler.SetupClusterConfig | controllers/hyperops_controller.go:239-326 | The three no-op upserts, the token read and the checks leave the stores and the description of the bootstrap function. |
| HyperOpsController.HyperOpsReconciler.CreateArgoCDClusterSecret | controllers/hyperops_controller.go:196-229 | The secret upsert in the current GitOps namespace leaves the stores and error of the secret function. |
| HyperOpsController.HyperOpsReconciler.RegisterLocal | controllers/hyperops_controller.go:110-124 | Bootstrapping and registering the local cluster leaves the stores and error of the local registration function. |
| HyperOpsController.HyperOpsReconciler.RegisterHosted | controllers/hyperops_controller.go:131-168 | Reading the kubeconfig, bootstrapping the hosted cluster and writing its secret leaves the stores and error of the hosted registration function. A HostedCluster without labels returns NilLabels after the bootstrap, with no secret written, where the source panics. |
| HyperOpsController.HyperOpsReconciler.Reconcile | controllers/hyperops_controller.go:82-169 | One reconcile leaves the stores, the GitOps namespace and the error of the reconcile function, whose properties are the lemmas below. This includes the NilLabels error for a HostedCluster without labels, where the source panics. |
| SetupProperties.IdentityStep | controllers/hyperops_controller.go:248-250 | One identity upsert only adds, touches only the identity, leaves its object present on success and changes nothing on failure. |
| SetupProperties.EnsureIdentityEffect | controllers/hyperops_controller.go:242-301 | The three identity upserts write only the ServiceAccount, the binding and the token secret, never change an existing object, and on success leave all three present. |
| SetupProperties.SetupFrame | controllers/hyperops_controller.go:239-326 | Bootstrapping writes only the identity of the cluster it talks to and never changes an existing object. |
| SetupProperties.SetupStopsAtFirstError | controllers/hyperops_controller.go:248-300 | A failed ServiceAccount upsert ends the bootstrap with its error and nothing changed; a failed binding upsert ends it with its error before the token secret is written. |
| SetupProperties.CredentialsOf | controllers/hyperops_controller.go:315-323 | The bearer token is the token as read, and the CA data decodes back to the `ca.crt` bytes. |
| SetupProperties.DescribeClusterEffect | controllers/hyperops_controller.go:303-325 | Reading the token secret changes nothing. Success means a token and a CA were found, and the description uses them. "token not found" means an empty token. "ca.crt not found" means a token but an empty CA. |
| SetupProperties.SetupSucceeds | controllers/hyperops_controller.go:239-326 | A successful bootstrap leaves the identity in place, with a token and a CA, and describes the cluster with exactly those credentials. |
| SetupProperties.SetupMissingCredentials | controllers/hyperops_controller.go:308-313 | "token not found" and "ca.crt not found" are reported exactly for an empty token, and for a token with an empty CA. |
| SetupProperties.IdentityErrors | controllers/hyperops_controller.go:248-300 | The identity upserts fail only with API errors or the timeout. |
| SetupProperties.SetupWithoutFaults | controllers/hyperops_controller.go:239-326 | With no fault, the token secret found beforehand decides the outcome, in both directions: no token, a token but no CA, or success with its credentials. |
| SetupProperties.SetupSettled | controllers/hyperops_controller.go:239-326 | Bootstrapping an already bootstrapped cluster performs no write: each of the three upserts reports Unchanged after one attempt, and the description uses the credentials already there. |
| SetupProperties.SetupNeverUpdates | controllers/hyperops_controller.go:248-296 | No bootstrap upsert ever reports Updated. |
| SetupProperties.SetupUnreachable | controllers/hyperops_controller.go:248-254 | Bootstrapping through a client of an unreachable cluster fails at once and changes nothing. |
| ClusterSecretProperties.ClusterSecretDataShape | controllers/hyperops_controller.go:215-219 | The secret data has exactly the keys `name`, `server` and `config`, holding the name, the server and a JSON text that reads back as the credentials. |
| ClusterSecretProperties.ClusterSecretShape | controllers/hyperops_controller.go:196-229 | The secret is named after the cluster in the GitOps namespace. Writing it touches nothing else and changes nothing on failure. On success the secret has the caller's labels plus the ArgoCD secret type, type Opaque, and that data. |
| ClusterSecretProperties.ProjectedSecretFixed | controllers/hyperops_controller.go:213-222 | A secret is in that projected shape exactly when the secret's mutate function leaves it unchanged. |
| ClusterSecretProperties.ClusterSecretSettled | controllers/hyperops_controller.go:213-228 | Writing a secret that is already in place writes nothing and reports Unchanged. |
| ClusterSecretProperties.ClusterSecretWithoutFaults | controllers/hyperops_controller.go:213-228 | With no fault, writing the secret succeeds. |
| ReconcileProperties.AdmitOnEnabledKey | controllers/hyperops_controller.go:175-191 | Create and update events pass exactly when the (new) object has the enabled label, whatever its value; removing the label blocks them, and delete and generic events are not filtered. |
| ReconcileProperties.PrefixWithoutSeparator | controllers/hyperops_controller.go:158 | Every key that begins with the label domain, with or without a slash after it, is kept with its value. A key that starts with anything else, even one holding the domain later, is dropped. |
| ReconcileProperties.HostedLabelsExact | controllers/hyperops_controller.go:155-162 | The hosted secret's labels are exactly the prefixed HostedCluster labels, with their values, plus type `hosted` and the ArgoCD secret type. |
| ReconcileProperties.LocalLabelsExact | controllers/hyperops_controller.go:117-121 | The local secret's labels are exactly type `local` and the ArgoCD secret type. |
| ReconcileProperties.NamesDistinct | controllers/hyperops_controller.go:133 | The kubeconfig secret's name never equals the name of a secret the controller writes. |
| ReconcileProperties.ReconcileFetchFails | controllers/hyperops_controller.go:85-89 | When the HostedCluster cannot be read, nothing changes, the namespace stays, and the reconcile succeeds exactly when the read said NotFound. |
| ReconcileProperties.ReconcileNotFound | controllers/hyperops_controller.go:85-89 | A HostedCluster that does not exist is no error, and nothing at all changes. |
| ReconcileProperties.ReconcileDeleting | controllers/hyperops_controller.go:91-103 | For a HostedCluster being deleted, the only write is deleting its secret in the current namespace. NotFound is ignored. With no fault the secret is gone and the reconcile succeeds. |
| ReconcileProperties.ReconcileNamespace | controllers/hyperops_controller.go:104-109 | Afterwards the namespace is the `gitops-namespace` label of a live HostedCluster that has one, and otherwise the namespace from before; it is never reset to the default. |
| ReconcileProperties.RegisterLocalEffect | controllers/hyperops_controller.go:110-124 | Registering the local cluster writes only its identity and its secret; on success the identity is in place and `in-cluster-local` describes it with the local token secret's credentials. |
| ReconcileProperties.SetupThenSecret | controllers/hyperops_controller.go:239-326 | For any cluster, namespace, labels, server and name whose secret is not the token secret `kube-system/hyper-ops-admin-token`, setting up the cluster and then writing its ArgoCD secret touches only the cluster's identity objects and that one secret when the setup succeeds; when the write succeeds too, the cluster is bootstrapped and the secret carries the given labels, server and the token read back from the cluster. |
| ReconcileProperties.SecretKeepsIdentity | controllers/hyperops_controller.go:196-229 | Writing an ArgoCD secret under a name other than the token secret's leaves every cluster's identity and token as they were. |
| ReconcileProperties.RegisterHostedEffect | controllers/hyperops_controller.go:131-168 | A missing kubeconfig is no error, and a failed client, parse or server lookup is returned, all with nothing changed. Otherwise objects may be added, and no existing object other than the hosted secret changes. On success the HostedCluster has labels, and that secret describes the first server with a non-empty token and a CA that decodes. |
| ReconcileProperties.RegisterHostedCredentials | controllers/hyperops_controller.go:131-167 | Whatever errors the stores report, a successful hosted registration that found the kubeconfig leaves the cluster of the kubeconfig's client bootstrapped. The hosted secret carries the first kubeconfig server and exactly the token and CA of that cluster's token secret. Excluded: a hosted secret that is the token secret. |
| ReconcileProperties.RegisterHostedNoLabels | controllers/hyperops_controller.go:149-167 | A HostedCluster without labels never gets a hosted secret. The hosted registration succeeds only when the kubeconfig is missing, with nothing changed. When the hosted bootstrap succeeds, it ends with NilLabels, leaving the bootstrap's stores. |
| ReconcileProperties.ReconcileRegisters | controllers/hyperops_controller.go:104-111 | A live HostedCluster is registered with the namespace override already in effect. |
| ReconcileProperties.RegisterOrder | controllers/hyperops_controller.go:110-130 | The local cluster is registered first, whatever the enabled label says, and its failure ends the reconcile. `enabled: "false"` stops right after it. Afterwards only the hosted secret can differ among existing objects. |
| ReconcileProperties.ReconcileDisabled | controllers/hyperops_controller.go:126-130 | For a live HostedCluster labelled `enabled: "false"`, only the local identity and the local secret are written, and the reconcile ends with the local registration's result. |
| ReconcileProperties.LocalSecretSurvives | controllers/hyperops_controller.go:121-164 | The local secret written first survives a hosted write that changes no existing object but the hosted secret, when the HostedCluster is not named `in-cluster-local`. |
| ReconcileProperties.SecretSurvives | controllers/hyperops_controller.go:155-167 | Any registered secret survives a hosted write that may touch only the hosted secret, when the two secrets have different names. |
| ReconcileProperties.RegisterLocalSecret | controllers/hyperops_controller.go:110-168 | After a successful registration that is disabled or whose HostedCluster is not named `in-cluster-local`, the local secret is in place with its exact labels and server. |
| ReconcileProperties.ReconcileLocalSecret | controllers/hyperops_controller.go:104-124 | After a successful reconcile of a live HostedCluster, `in-cluster-local` sits in the (possibly overridden) namespace with exactly its two labels and the server `https://kubernetes.default.svc`. |
| ReconcileProperties.ReconcileHostedSecret | controllers/hyperops_controller.go:131-168 | After a successful, enabled reconcile that found the kubeconfig, the hosted secret is in the overridden namespace, named after the HostedCluster. Its labels are exactly the current prefixed labels plus type `hosted` and the ArgoCD type. Its data describes the first kubeconfig server with a non-empty token and a CA that decodes to non-empty bytes. RegisterHostedCredentials ties these to the hosted cluster's token secret. This holds whatever earlier reconciles left, so newly added labels appear. |
| ReconcileIdempotence.LocalSettled | controllers/hyperops_controller.go:110-124 | With no fault, registering a local cluster that is already bootstrapped and registered writes nothing and succeeds. |
| ReconcileIdempotence.HostedSettled | controllers/hyperops_controller.go:131-168 | With no fault, registering a hosted cluster that is already bootstrapped and registered writes nothing and succeeds. A registered HostedCluster always has labels, since one without labels is never registered. |
| ReconcileIdempotence.LocalEstablished | controllers/hyperops_controller.go:110-124 | With no fault, a successful local registration leaves the local cluster bootstrapped and registered. |
| ReconcileIdempotence.HostedEstablished | controllers/hyperops_controller.go:131-168 | With no fault, and when the hosted secret is not the token secret `kube-system/hyper-ops-admin-token`, a successful hosted registration leaves the hosted cluster bootstrapped and registered, with the kubeconfig secret untouched. |
| ReconcileIdempotence.RegisterIdempotent | controllers/hyperops_controller.go:110-168 | With no fault, when the HostedCluster is not named `in-cluster-local` and its secret is not the token secret `kube-system/hyper-ops-admin-token`, registering again right after a successful registration writes nothing and succeeds. |
| ReconcileIdempotence.LocalRegisterIdempotent | controllers/hyperops_controller.go:110-130 | The case of a registration that stops after the local cluster, because it failed or the HostedCluster is disabled: with no fault, a successful one repeated writes nothing. |
| ReconcileIdempotence.HostedRegisterIdempotent | controllers/hyperops_controller.go:110-168 | The case of a registration that goes on to the hosted cluster: with no fault, when the HostedCluster is not named `in-cluster-local` and its secret is not the token secret, a successful one repeated writes nothing, and no cluster or scripted fault appears. |
| ReconcileIdempotence.RegisterKeepsHostedCluster | controllers/hyperops_controller.go:110-168 | Registration never changes an existing HostedCluster object. |
| ReconcileIdempotence.ReconcileIdempotent | controllers/hyperops_controller.go:82-169 | With no fault, when the HostedCluster is not named `in-cluster-local` and its secret in the namespace the first reconcile left is not the token secret, a second reconcile right after a successful one, with that namespace, gives exactly the same stores, namespace and result. This covers a missing, a deleted and a live HostedCluster. |

## Left out

- The API server, the network and the informer cache. These are replaced by
  the in-memory stores with scripted errors.
- Object metadata beyond labels, annotations and the deletion marker:
  resource versions, owner references, and the `HostedCluster` field of
  `Cluster`, which is never serialised.
- `GetClientForCluster` (controllers/utils.go:42-54) is the parameter
  `clientFor`. It is an opaque constructor that may fail.
- The YAML parsing of the kubeconfig is the parameter `parse`.
- Backoff timing: durations, factor and jitter, and the sleeps of
  `retry.DefaultBackoff`. Only its budget of four steps is modelled.
- Logging, `SetupWithManager` beyond its event filter, and the `Owns` watch
  on secrets.
- Concurrent reconciles and the data race on `gitOpsNamespace`. Only the
  sequential behaviour, where the value sticks across calls, is modelled.
- The controller that fills in the token secret's `token` and `ca.crt`. The
  model reads whatever the store holds.
- ConfigJson.Marshal: escapes only `"` and `\`. `encoding/json` also escapes
  control characters and `<`, `>` and `&`, and replaces invalid UTF-8. Tokens
  and base64url text contain none of these. The error return of
  `json.Marshal` cannot occur for this record and is not modelled.
- Bytes.Utf8: Go's `[]byte(s)` of a valid string. Dafny strings cannot hold
  the byte sequences that are not valid UTF-8, which a Go string may contain.
- HyperOps.ServerFromKubeconfig: returns `NoClusterEntry` where the source
  panics on a kubeconfig that lists no cluster.
- HyperOps.RegisterHosted: returns `NilLabels` where the source panics on a
  HostedCluster with no labels (controllers/hyperops_controller.go:162 assigns
  into the nil map from `GetLabels()`). Whether the panic is recovered as an
  error or crashes the process is not modelled. An empty label map that is not
  nil cannot be told apart here. It is treated as nil, which is what a decoded
  object without labels holds.
- Upsert.RetriesEffect: concurrent writers are not modelled. A scripted
  conflict changes no store, so the retry re-reads the object the failed
  attempt saw. A real conflicting change between attempts (new annotations, a
  deletion marker, a create or delete by someone else) would be seen by the
  retry and could change its result.
- Upsert.RetriesAfterOneConflict: for the same reason, the retry after a
  conflict retries against the unchanged stores.
- HyperOps.Register: returns `NilLabels` for a HostedCluster without labels, where
  the source panics (as HyperOps.RegisterHosted above).
- HyperOps.Reconcile: returns `NilLabels` for a HostedCluster without labels, where
  the source panics (as HyperOps.RegisterHosted above).
- HyperOpsController.HyperOpsReconciler.RegisterHosted: returns `NilLabels` for a
  HostedCluster without labels, where the source panics (as HyperOps.RegisterHosted above).
- HyperOpsController.HyperOpsReconciler.Reconcile: returns `NilLabels` for a
  HostedCluster without labels, where the source panics (as HyperOps.RegisterHosted above).
- The stores do not enforce immutable fields. The API server rejects an update
  that changes a secret's `type`, which the model's stores accept.
