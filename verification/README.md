# pmcluster: a verified model of the control plane

pmcluster keeps a desired state in SQLite and a live state in a Docker Swarm, and moves the second towards the
first. This project models the parts of it whose correctness depends on several functions together, in Dafny,
and proves what they keep. Where the code does not keep what its comments promise, the exact condition under
which it does is proved, and the run that shows the failure is given as a lemma.

`dafny verify dfyconfig.toml` checks everything.

## How the model is built

Code that updates objects in place is a class with the same fields and methods. Each method is proved, for all
inputs and all faults, to do what a specification function on values says, or to stay within a relation where map
order decides; the theorems are about those specifications and about runs of them. What the specifications mean is
said once more without them, in literal names, texts and fields (`PlatformContents`, `StackContents`,
`DocumentFields`, `Templates`, and the like in each file). Loops over Go maps take their
elements in an arbitrary order. What the environment decides
(whether a create, a removal, a hash write, a deploy or a commit fails, what a failed deploy leaves behind, what
the clock reads) is a parameter of the operation. SHA-256 is an injective constructor (`Common.Digest`): two
contents have the same fingerprint only if they are equal. The text renderers (YAML, Go templates) are functions
of the build. A manifest is nice when all its texts are well-formed, every dollar sign starting a complete placeholder,
and no builtin that a text mentions has a value that mentions another one.

| file | component |
|---|---|
| `Common`, `Splitting` | shared vocabulary; `strings.Split` |
| `VersionNames`, `VersionedObjects` | versioned secrets and configs of the swarm: reuse, minting, collection |
| `ConfigStore` | the config table with its history, rollback, and the sync of bundled templates |
| `PlatformUpdate`, `PlatformConvergence`, `PlatformObjects`, `PlatformRuns`, `PlatformContents` | `cluster update` and what it promises; runs of it with `cluster up`; what it leaves running, in plain texts and settings |
| `HostCerts` | per-host certificates on top of both |
| `StackRevisions`, `StackSync`, `UnsettledManifest`, `StackContents` | application stacks: deploy, sync, rollback, undeploy; when a sync skips; what is recorded and running |
| `Manifest`, `Placeholders`, `Interpolate` | the manifest, its references, and interpolation in place |
| `RawValues`, `RawFields`, `Templates` | manifests of which one builtin field holds placeholders itself; what a text with placeholders means |
| `Compose`, `ComposeTheorems`, `DocumentFields`, `ManifestPipeline` | from manifest to Compose document, and the document field by field |
| `Paths`, `VolumePaths` | slash-separated paths; where volumes live on the host |
| `RateLimiter`, `AutoBan` | the edge's per-address machines |
| `LogDemux`, `Migrations`, `ArchivePaths` | log frames, schema migrations, archive restore |

## Where code and documentation part

The model follows the code. The members named here state the difference.

- Per-host secret bases are documented to differ per host; two hosts can share them (`HostCerts.HostsCanCollide`,
  `HostCerts.CollidingHostLosesIff`).
- An update is documented to redeploy what changed; a stack whose deploy failed is never retried, because its
  hash is stored first (`PlatformConvergence.FailedDeployIsNeverRetried`). The same holds for stacks deployed by
  users (`StackSync.FailedDeployIsSkippedBySync`, `StackSync.HalfUndeployedIsSkipped`).
- Re-running `cluster up` is documented to reconcile; after one that broke off, `up` refuses because rows are there and
  an update refuses because no domain is, however often both are tried (`PlatformRuns.BrokenUpSticksIff`,
  `PlatformRuns.StuckStays`).
- A secret version is documented to be reused only for exactly the same bytes; a lost hash write or a leftover
  version breaks that (`VersionedObjects.LostHashWriteIff`, `HostCerts.DropKeepsSoundIff`,
  `HostCerts.UnsafeCertRemovalServesOther`).
- Applying a per-host certificate is documented to refresh Traefik with it; the refresh renders the rows from before
  (`PlatformObjects.RefreshRendersOldRows`), whose secrets may be gone (`HostCerts.RefreshFindsIff`).
- A sync is documented to re-run the stored deploy; the payload's version override is not part of it
  (`StackSync.SyncAfterDeployIff`), and a manifest whose fields hold raw placeholders may come out differently
  (`StackSync.RawFieldAlwaysSkips`, `UnsettledManifest.SyncRedeploysAnotherImage`).
- A rate-limited address is meant not to gain from eviction; it does unless an idle window refills its bucket
  (`RateLimiter.EvictionUnobservableIff`).
- Interpolation reads as one substitution; if a builtin field such as the domain mentions another builtin, and some text
  holds that field's placeholder, the result depends on map order (`RawFields.RawFieldIff`, `RawFields.RawDomainIff`).
- A service with zero replicas is deployed with one (`ComposeTheorems.ReplicasIff`), an app named like a shared
  network loses its private one (`ComposeTheorems.PrivateNetworkIff`), a volume without a source is mounted but
  not declared (`ComposeTheorems.ClosedIff`), and routers of two apps or two services can share a name
  (`ComposeTheorems.ScopesCollideIff`, `ComposeTheorems.RouterNamesIff`).
- Every volume is documented to land under `<root>/<app>` on a directory of its own name; some leave it, and some
  share one (`VolumePaths.VolumesStayUnderAppIff`, `VolumePaths.DirectorySharedIff`).
- Concurrent failures of one address can wipe each other's count (`AutoBan.EveryRoundBansIff`,
  `AutoBan.ClearCanWipeAFailure`).
- A log frame of size zero, which is harmless in itself, ends the output without an error
  (`LogDemux.BadFrameHidesRest`).
- Migrations are documented to run in lexicographic order; one inserted later runs last
  (`Migrations.RunsInOrderIff`, `Migrations.InsertedMigrationRunsLast`).
- An archive entry may leave the target and come back (`ArchivePaths.AcceptedIff`); the check is exact all the same.

## Model

| member | source | states |
|---|---|---|
| VersionNames.ScanPrinted | pmcluster/internal/cluster/secrets.go:110-137 | Printing a version as `<base>_v<NNN>` and scanning the name back gives the version, for every base and version, also beyond three digits; so distinct versions of a base have distinct names. |
| VersionNames.PrintedForm | pmcluster/internal/cluster/secrets.go:136-137 | What a printed version looks like, digit by digit (with `Common.DecimalDigits`): the base, `_v`, zeros up to three digits, the number. |
| VersionNames.ScanForms | pmcluster/internal/cluster/secrets.go:110-120 | How any name is read behind its prefix: a number with or without sign and leading zeros, whatever follows it; without a digit there it carries no version. |
| VersionNames.ApartNames | pmcluster/internal/cluster/secrets.go:110-115 | No name carries the version prefixes of two bases that do not extend one another, so listing by prefix never mixes them. |
| VersionNames.UnderscoreFreeApart | pmcluster/internal/cluster/hostcerts.go:31-53 | Distinct bases without an underscore never reach into each other's versions, whatever else they contain. |
| VersionedObjects.Swarm.EnsureVersionedSecret | pmcluster/internal/cluster/secrets.go:104-170 | The method's loops over listings in any order leave exactly the specified vault: reuse by recorded hash, else mint, record, collect; create failure leaves everything, a failed hash write leaves the new secret uncollected. Configs are untouched. |
| VersionedObjects.Swarm.EnsureConfig | pmcluster/internal/cluster/secrets.go:187-249 | The same for configs, which are compared with their own bytes and record no hash. Secrets and hashes are untouched. |
| VersionedObjects.ReusesIff | pmcluster/internal/cluster/secrets.go:206-216 | The highest version is handed out again, and nothing changes, if a secret's recorded hash or a config's own bytes are those asked for; a successful call that mints nothing was such a case. |
| VersionedObjects.MintCases | pmcluster/internal/cluster/secrets.go:136-155 | Otherwise, fault by fault: a failed create changes nothing, a failed hash write only adds the new secret, and a mint stores the bytes one version up and records only this base's hash. |
| VersionedObjects.CollectsIff | pmcluster/internal/cluster/secrets.go:235-246 | For secrets and configs: a name under the base's prefix goes if and only if the call minted another one and the daemon let it go; everything else stays with its payload. |
| VersionedObjects.OneVersionLeft | pmcluster/internal/cluster/secrets.go:235-246 | After a mint with nothing stuck, the returned name is the only one left under the prefix. |
| VersionedObjects.MintedNameIsNew | pmcluster/internal/cluster/secrets.go:136-150 | The name a mint prints is carried by no existing object, so a create never meets a name in use. |
| VersionedObjects.EnsureNewest | pmcluster/internal/cluster/secrets.go:104-170 | A successful call returns the newest name of its base afterwards; a mint is one version above everything that existed and holds the bytes. |
| VersionedObjects.EnsureHoldsData | pmcluster/internal/cluster/secrets.go:104-249 | In a sound vault the returned name holds exactly the given bytes, whatever removals fail, and the base stays sound. |
| VersionedObjects.EnsureFrame | pmcluster/internal/cluster/secrets.go:110-167 | A call for one base neither creates, removes nor changes an object, a recorded hash or the newest version of a base apart from it. |
| VersionedObjects.SecretReuseIff | pmcluster/internal/cluster/secrets.go:122-134 | For a write-only secret the returned name holds the given bytes if and only if the call minted it or the newest version already held them; nothing else is checked. |
| VersionedObjects.LostHashWriteIff | pmcluster/internal/cluster/secrets.go:139-155 | When the hash write fails after the create, the base stays sound if and only if no hash was recorded before or the recorded one is the new one. |
| VersionedObjects.LostHashWriteServesWrongBytes | pmcluster/internal/cluster/secrets.go:139-155 | The bad run: store a, lose the hash write of b, ask for a again. The last call succeeds and names the version holding b. |
| VersionedObjects.EnsureTwice | pmcluster/internal/cluster/secrets.go:122-134 | Asking again for the same bytes changes nothing and returns the same name, whatever the daemon does. |
| VersionedObjects.ReuseSurvives | pmcluster/internal/cluster/secrets.go:157-167 | A base that would be reused is still reused under the same name after a call, with collection, for another base. |
| VersionedObjects.RunAccounts | pmcluster/internal/cluster/secrets.go:104-249 | Along every run of calls and outside removals that leave each base's newest version, with any failing creates and removals: all bases stay sound, and each name handed out still holds its bytes while it is the newest of its base. |
| VersionedObjects.NamesNeverReused | pmcluster/internal/cluster/secrets.go:104-249 | Along every such run a name is handed out for one base and one content only, although objects come and go. |
| VersionedObjects.RemovalReissuesIff | pmcluster/internal/cluster/secrets.go:110-137 | Where that assumption ends: after removals from outside, the next mint of a base is above every version there was before if and only if they left its newest version; otherwise its name is a version the base had already passed. |
| ConfigStore.Store.CreateConfig | pmcluster/internal/store/configs.go:68-82 | A new row under a fresh id with the hash of its content and no history; an existing name is refused and nothing changes. |
| ConfigStore.Store.UpdateConfig | pmcluster/internal/store/configs.go:128-172 | Pushes the current value to the history and replaces it; equal content returns early without touching row or history; a missing row is an error. |
| ConfigStore.Store.RollbackConfig | pmcluster/internal/store/configs.go:206-260 | Pushes the current value and restores the named history entry, if it belongs to this row; otherwise nothing changes. The stamp is left alone. |
| ConfigStore.Store.DeleteConfig | pmcluster/internal/store/configs.go:264-277 | Removes the row and, by cascade, exactly its history. |
| ConfigStore.Store.SyncClusterConfigs | pmcluster/internal/cluster/templates.go:493-533 | The loop over the bundled names creates missing rows, overwrites cluster templates with another stamp, and leaves all else. |
| ConfigStore.ApplyKeepsConsistent | pmcluster/internal/store/configs.go:68-297 | Every operation keeps each hash equal to the hash of the content beside it, row ids unique, and every history row owned by a live row, so a reused id never inherits another config's history. |
| ConfigStore.EveryContentIsKept | pmcluster/internal/store/configs.go:128-277 | Along every run, every content a live row ever held is its current content or one of its history entries. |
| ConfigStore.RollbackUndoesLastChange | pmcluster/internal/store/configs.go:206-260 | Rolling back to the entry the last change pushed restores content and hash from before it, leaves all other rows, keeps the undone content in the history, and can itself be undone. The version stamp does not come back. |
| ConfigStore.RollbackRestores | pmcluster/internal/store/configs.go:206-260 | For every history entry of the row, however old: a rollback to it gives the row that entry's content and hash and nothing else, pushes the replaced content under a fresh id, and touches no other row or entry; to an entry of another row, or none, it does nothing. |
| ConfigStore.UpdateReplaces | pmcluster/internal/store/configs.go:128-172 | What an update leaves, field by field: content, hash and stamp are the new ones, one more entry holds the old content, and nothing else changes; equal content changes nothing. |
| ConfigStore.CreateInserts | pmcluster/internal/store/configs.go:68-82 | What a create leaves: every field of the new row, no history under its id, and nothing else. |
| ConfigStore.DeleteAndRender | pmcluster/internal/store/configs.go:264-297 | What a delete and a stored snapshot leave: exactly the row and its entries go; exactly content and hash of the snapshot change. |
| ConfigStore.UpdateStampsIff | pmcluster/internal/store/configs.go:146-170 | After an update the row carries the given stamp if and only if the content changed or it carried it already. |
| ConfigStore.SyncEffect | pmcluster/internal/cluster/templates.go:493-533 | After a sync at a build, the body read for each bundled name at that build is what it would have read before (the stamped row, else the embedded default), also for rows whose equal content kept an old stamp; other rows and all snapshot hashes are unchanged. |
| ConfigStore.SyncWrites | pmcluster/internal/cluster/templates.go:493-533 | What a sync leaves at each bundled name, field by field: a missing row becomes a cluster template of this build with the embedded text, a stale template gets text and stamp, and every other row stays. |
| ConfigStore.SettledSyncIsNoop | pmcluster/internal/cluster/templates.go:493-533 | A sync changes nothing when every bundled name has a row and every row with another stamp already holds the default. |
| ConfigStore.SyncTwiceIsOnce | pmcluster/internal/cluster/templates.go:493-533 | A second sync at the same build changes nothing. |
| PlatformUpdate.Updater.RunUpdate | pmcluster/internal/cluster/update.go:63-302 | The whole pipeline, stage by stage and with each stage's early exit, leaves exactly the specified world and report. |
| PlatformUpdate.Updater.LoadState | pmcluster/internal/cluster/update.go:97-184 | Persisted state becomes the render input; a missing SSO cookie is minted and kept even when a later check fails. |
| PlatformUpdate.Updater.EnsureTlsSecrets | pmcluster/internal/cluster/update.go:186-206 | Certificate first, key second: a missing key file is noticed after the certificate version was minted. |
| PlatformUpdate.Updater.EnsureRenderedConfigs | pmcluster/internal/cluster/update.go:208-237 | OTel, Traefik and edge in that order, each rendered with the names found before it. |
| PlatformUpdate.Updater.ChangedStacks | pmcluster/internal/cluster/update.go:254-269 | The stacks to redeploy are, in order, exactly those whose row is missing or stores another hash than the fresh render's. |
| PlatformUpdate.Updater.StoreSnapshots | pmcluster/internal/cluster/update.go:274-278 | Every rendered config with a row gets content and hash, whatever order the map is walked in; names without a row are skipped. |
| PlatformUpdate.Updater.DeployStacks | pmcluster/internal/cluster/update.go:280-289 | Stacks are deployed in order from the stored templates; the first failure ends the loop and leaves what that deploy left. |
| PlatformUpdate.DeployStops | pmcluster/internal/cluster/update.go:280-285 | Once a deploy fails the stacks behind it are not touched. |
| PlatformContents.UpdateRunsTemplates | pmcluster/internal/cluster/update.go:63-302 | After a successful update each enabled stack runs the composition of its own text, found under its own literal row name (the row if it is the cluster's template with the running build's stamp, else the embedded file), from a render input in which every field comes from its own setting, credential or certificate; its row stores that text and its hash. On sound bases all objects the input names hold what their own templates render to. |
| PlatformContents.EditIsDeployed | pmcluster/internal/cluster/update.go:239-289 | An edit of a stack's template at the running build, followed by a successful update, runs the composition of the edited text. |
| PlatformContents.StoredSnapshots | pmcluster/internal/cluster/update.go:239-278 | After a successful update the rows of exactly the names a read-only rendering shows, the two standalone configs included, hold what their own texts give, with its hash; every other row keeps its snapshot's hash. |
| PlatformContents.ReportedDeploys | pmcluster/internal/cluster/update.go:248-289 | What a successful update reports as deployed: observability, infra, edge, backup and sign-on in that order, exactly those whose row did not hold the hash of what they run now. |
| PlatformContents.ReportedMint | pmcluster/internal/cluster/update.go:186-237 | It reports that it minted something if and only if the swarm's secrets or configs changed. |
| PlatformContents.ShownIs | pmcluster/internal/cluster/update.go:352-440 | The read-only rendering shows exactly the seven names, or six without sign-on, each with what its own text composes to now. |
| PlatformContents.FailedDeployPlace | pmcluster/internal/cluster/update.go:280-289 | When a deploy fails, the stacks in front of it in that order run their texts, it is what the failure left, and those behind it run what they ran before. |
| PlatformContents.EarlyFailures | pmcluster/internal/cluster/update.go:79-206 | An update that stops before it renders: which error it is, and that the sync, a minted cookie and the version of a certificate whose key file is missing stay. |
| PlatformConvergence.DeployFates | pmcluster/internal/cluster/update.go:280-289 | For every list of stacks and every failure, of deploys or renders: the outcome of a deploy and the content at each stack afterwards, decided before it starts by the place of the first stack that blocks it. |
| PlatformConvergence.PlatformBasesApart | pmcluster/internal/cluster/update.go:193-214 | The five object bases of the platform never share a version name. |
| PlatformConvergence.PrepareAgain | pmcluster/internal/cluster/update.go:97-237 | Provisioning again from what a successful provisioning left mints nothing and yields the same render input, whatever the environment does. |
| PlatformConvergence.UpdateAgainIsNoop | pmcluster/internal/cluster/update.go:186-294 | After an update that got as far as reconciling, a second one with unchanged inputs succeeds, mints nothing, deploys nothing and changes nothing, whatever the stacks are really running. |
| PlatformConvergence.FaithfulAfterReconcileIff | pmcluster/internal/cluster/update.go:254-289 | When the stored hashes describe what is running after a reconcile, decided by what is known before it: no stale stack is made to fail, or the first one that is leaves its fresh render anyway and every stale stack queued behind it is running its own already. |
| PlatformConvergence.EndsFreshIff | pmcluster/internal/cluster/update.go:254-289 | The same for one enabled stack: whether it runs its fresh render after a reconcile, decided before the first deploy. |
| PlatformConvergence.UpdateConverges | pmcluster/internal/cluster/update.go:239-294 | After a successful update every enabled stack runs exactly what a read-only rendering then reports, although only stacks with another hash were redeployed, and the stored hashes are the hashes of what is running. |
| PlatformConvergence.CalmUpdateKeepsFaithful | pmcluster/internal/cluster/update.go:63-302 | An update in which no deploy fails keeps stored hashes and running stacks in agreement, also when it stops at any earlier stage. |
| PlatformRuns.RunConverges | pmcluster/internal/cluster/update.go:239-294 | That agreement holds along every run of config edits, rollbacks, deletions, changes of settings, credentials, certificates and swarm objects, updates by any build in which no deploy fails, and `cluster up`s that end in any way, unless one that is neither refused nor stores its snapshots finds the snapshot of a service config named like a stack. |
| PlatformRuns.UpdateAfterRunConverges | pmcluster/internal/cluster/update.go:239-294 | So a successful update at the end of any such run, from a store without snapshots, leaves every enabled stack running its fresh render. |
| PlatformConvergence.FailedDeployIsNeverRetried | pmcluster/internal/cluster/update.go:274-289 | The bad run: all hashes are stored before the first deploy, so after a failed deploy the next update reports success, deploys nothing and changes nothing. For every enabled stack it is said exactly when it runs its fresh render: by its place among the stale ones, by what the failure leaves, and by what it was running. |
| PlatformRuns.UpDeploys | pmcluster/internal/cluster/up.go:101-352 | What `cluster up` does: it refuses an installed cluster; else what it leaves running at every stack, and exactly when it stores its snapshots, saves its settings and succeeds. |
| PlatformContents.UpRunsTemplates | pmcluster/internal/cluster/up.go:101-352 | A successful `up` leaves every enabled stack running the composition of its own text from the flags, its row storing that, and all five settings saved. |
| PlatformContents.UpRefuses | pmcluster/internal/cluster/up.go:104-113 | An `up` does nothing once a domain or a TLS mode is saved or a config row is the cluster's; one that fails to provision has only synced. |
| PlatformRuns.FaithfulAfterUpIff | pmcluster/internal/cluster/up.go:101-352 | Snapshots are stored last: hashes and running stacks agree after an `up` if and only if it is refused, breaks off before the first deploy, stores its snapshots, or leaves at every enabled stack what fits the hash stored before. |
| PlatformRuns.UpKeepsFaithful | pmcluster/internal/cluster/cluster_state.go:83-101 | So every `up`, wherever it breaks off, keeps the agreement: one that is not refused finds no snapshot, as long as no service config with a stack's name holds one. |
| PlatformRuns.TameRunsAreCalm | pmcluster/internal/cluster/cluster_state.go:83-101 | Along every run that creates no service config under a stack's name this last condition holds by itself, so all its `up`s are admitted, however they end. |
| PlatformRuns.BrokenUpSticksIff | pmcluster/internal/cluster/up.go:104-113 | An `up` that ended without success leaves a cluster that refuses the next `up` and has no domain for an update if and only if it met one, or a bundled config had no row yet, or a TLS mode was saved. |
| PlatformRuns.StuckStays | pmcluster/internal/cluster/update.go:97-110 | The bad run: from there on every sequence of `up`s and updates, by any builds and whatever the environment does, fails at every step and deploys nothing. |
| PlatformConvergence.UpdateAgrees | pmcluster/internal/cluster/update.go:186-237 | An update leaves every secret alone that is not a version of the cluster's own certificate or key. |
| PlatformObjects.InputNamesHold | pmcluster/internal/cluster/update.go:186-237 | After all minting and collecting of an update, everything its render input names exists and holds what it stands for: the OTel and Traefik configs their renders, the two secrets the certificate files. |
| PlatformObjects.UpdateKeepsSound | pmcluster/internal/cluster/update.go:186-237 | The cluster's own secret bases stay sound through every update whose hash writes succeed, whatever else fails. |
| PlatformObjects.UpdateSucceedsIff | pmcluster/internal/cluster/update.go:63-302 | When nothing fails and the templates render, an update succeeds if and only if the persisted state is complete: domain, valid SSO settings, admin credentials, and ACME or both certificate files. |
| PlatformObjects.RefreshRendersOldRows | pmcluster/internal/cluster/sitecert.go:126-158 | A certificate's refresh runs before its row is stored, so the Traefik config it leaves is the render of the old rows; the next update keeps that config if and only if the new rows render to the same text. |
| HostCerts.HostSecretBase | pmcluster/internal/cluster/hostcerts.go:43-53 | The character loop computes the base: host lower-cased, all but ASCII letters and digits collapsed to dashes. |
| HostCerts.CollapsedIs | pmcluster/internal/cluster/hostcerts.go:43-53 | The collapsed host character by character: lower-case letters and digits stay, capitals become their lower-case letter, every other ASCII character a dash. |
| HostCerts.BasesApartIff | pmcluster/internal/cluster/hostcerts.go:36-53 | Two hosts' bases are apart if and only if the hosts collapse to different texts; certificate and key bases, and the cluster's own, are always apart from them. |
| HostCerts.HostsCanCollide | pmcluster/internal/cluster/hostcerts.go:40-42 | Contrary to the comment that bases differ per host, `a-b.com` and `a.b.com` share both bases. |
| HostCerts.CertManager.ApplyCert | pmcluster/internal/cluster/sitecert.go:113-159 | Host lower-cased, certificate then key secret, refresh, then the row; a failure in between leaves the row as it was. |
| HostCerts.CertManager.RemoveCert | pmcluster/internal/cluster/sitecert.go:168-199 | Refused for the cluster's own domain. The row goes first, then each secret unless the daemon refuses; recorded hashes stay, and a refresh failing behind it takes nothing back. |
| HostCerts.ApplyStores | pmcluster/internal/cluster/sitecert.go:113-159 | A successful apply on sound bases leaves a row that names, under the host's own prefixes, a secret with exactly the certificate and one with exactly the key, with their hashes; no other row changes, and a failed one changes none. |
| HostCerts.RemovalTakes | pmcluster/internal/cluster/sitecert.go:168-184 | A removal takes the row and the secrets it names, except those the daemon keeps; every other row, secret and recorded hash stays. |
| HostCerts.RowsStayServed | pmcluster/internal/cluster/sitecert.go:113-184 | Along every sequence over hosts with distinct bases of applies, failing ones included, removals and refreshes, every row names two existing secrets whose payloads hash to the row's hashes, although collection may always fail. Hash writes succeed, an apply either replaces the row or mints nothing, and a removal is safe, all decided before the event; `ApplyKeepsOwnIff` and `RemovalKeepsHostIff` show that the last two conditions are exact. |
| HostCerts.ApplyKeepsOwnIff | pmcluster/internal/cluster/sitecert.go:113-159 | When hash writes succeed, an apply leaves its host right if and only if it will store the row, or will mint nothing under the host's bases, which recorded hashes and fault flags decide beforehand. |
| HostCerts.HalfAppliedDanglesIff | pmcluster/internal/cluster/sitecert.go:113-159 | After an apply that failed on the key or in the refresh, the kept row names a certificate that is gone if and only if another hash was recorded and the daemon let the old version go; likewise the key, if it was the refresh that failed. |
| HostCerts.RemovalKeepsHostIff | pmcluster/internal/cluster/sitecert.go:168-184 | A removal leaves its host right if and only if, for each secret that goes, no hash is recorded, nothing older is left, or what is left newest holds the same bytes. |
| HostCerts.RefreshFindsIff | pmcluster/internal/cluster/sitecert.go:113-141 | The refresh of an apply renders the rows from before: it still finds each of the host's own old secrets if and only if the hash recorded for it is that of the new bytes or the daemon kept the old version, and always finds those of every other host. |
| HostCerts.UpdateIsRefresh | pmcluster/internal/cluster/sitecert.go:126-141 | An update run in between touches no per-host secret, so it is one of the refreshes of the sequence above. |
| HostCerts.DropKeepsSoundIff | pmcluster/internal/cluster/sitecert.go:183-184 | Removing a base's newest version keeps the base sound if and only if no hash is recorded, nothing older is left, or what is left newest holds the same bytes, because the recorded hash outlives the secret. |
| HostCerts.UnsafeCertRemovalServesOther | pmcluster/internal/cluster/sitecert.go:113-184 | The other half: after every removal that is not safe for the certificate, applying the same certificate again succeeds with a row that names an older version and its different bytes. |
| HostCerts.UnsafeKeyRemovalServesOther | pmcluster/internal/cluster/sitecert.go:113-184 | The same for the key: any certificate applied with the removed key gets a row whose key secret holds another key. |
| HostCerts.EnsureLosesIff | pmcluster/internal/cluster/secrets.go:104-170 | A version that a base had is gone after a call if and only if the recorded hash is not that of the bytes (or no version is left to reuse), no fault stops the mint, and the daemon lets the old one go. |
| HostCerts.CollidingHostLosesIff | pmcluster/internal/cluster/sitecert.go:113-124 | When two hosts share a base, applying a certificate for the second leaves the first one's row without its secret if and only if the certificates differ and the old version was collected. |
| StackRevisions.RecordDeploy | pmcluster/internal/store/stacks.go:49-118 | Inserts the revision and moves the pointer, refuses a used id, touches no other stack, stores the new provenance, and keeps the row's where the new one is empty. |
| StackRevisions.Translate | pmcluster/internal/stacks/deploy.go:150-166 | What a manifest translates to: the text of an outcome that some map orders of interpolation and translation allow, with the resolver reading the stored configs. |
| StackRevisions.Service.NextFreeRevision | pmcluster/internal/store/stacks.go:177-194 | The probing loop returns the smallest unused id from the candidate on within ten thousand, or fails when all are used. |
| StackRevisions.Service.LatestRevision | pmcluster/internal/store/stacks.go:214-243 | The row a sync reads is the one with the largest revision id. |
| StackRevisions.Service.DeployStack | pmcluster/internal/stacks/deploy.go:90-216 | Compile, strict backup, free id, record, then deploy: the world and the outcome, also for each failure, for some translation that the manifest and the stored inputs allow. |
| StackContents.DeployRuns | pmcluster/internal/stacks/deploy.go:135-216 | A deploy that gets to record, for every manifest and whatever the map orders: what it records and runs is the marshalled document of a validated rendering of the manifest, under the payload's name and version where these are given, with every field accounted for; the revision is the first free one from the clock on, and it ends blocked by a strict backup, failed, or running, exactly as the faults say. |
| StackContents.OverrideDeployed | pmcluster/internal/stacks/deploy.go:140-145 | In particular every service of a deploy with a version of its own is labelled with that version. |
| StackContents.ImageDeployed | pmcluster/internal/stacks/deploy.go:135-166 | Among fields without placeholders, a deployed image is what its text in the manifest says part by part, `${version}` being the payload's version, else the manifest's, else `latest`. |
| StackContents.DeployCases | pmcluster/internal/stacks/deploy.go:118-200 | Which error a deploy ends with, and for each what is recorded, with its provenance, and what runs. |
| StackRevisions.Service.SyncStack | pmcluster/internal/stacks/deploy.go:225-270 | Re-translates the latest revision's manifest, skips on equal hash, else translates it once more and deploys that, without the original version override; each translation is one the manifest and the stored inputs allow. |
| StackContents.SyncCases | pmcluster/internal/stacks/deploy.go:225-270 | A sync reads the largest revision; if the text it gets has that revision's hash it changes nothing and reports it, else it deploys that manifest under the stack's name with neither version nor provenance. |
| StackContents.SyncSees | pmcluster/internal/stacks/deploy.go:239-246 | The text it compares with is a translation of the recorded manifest under the stack's name. |
| StackRevisions.Service.RollbackStack | pmcluster/internal/stacks/deploy.go:308-395 | Records the source revision's content again under a new id and deploys it. |
| StackContents.RollbackCases | pmcluster/internal/stacks/deploy.go:308-395 | A rollback records every field of the old revision but its file under the first free id, keeps the row's provenance, asks for no backup, and ends like a deploy of the old compose. |
| StackRevisions.Service.UndeployStack | pmcluster/internal/stacks/deploy.go:401-479 | A failed removal leaves the tables; then the stack's config rows go, and last the stack and its history, whose deletion may fail and leaves them standing with nothing running. |
| StackContents.UndeployCases | pmcluster/internal/stacks/deploy.go:401-479 | How far a removal gets under each fault, and that of the configs exactly the stack's own go. |
| StackRevisions.NextFreeIsNewestIff | pmcluster/internal/store/stacks.go:177-194 | The free id is above every used one if and only if there is no gap between the clock and the largest used id. |
| StackRevisions.CurrentIsNewest | pmcluster/internal/store/stacks.go:177-194 | With a clock that never goes back, along every run of deploys, syncs, rollbacks and undeploys, failing or not, each stack's current pointer is its largest revision id. |
| StackRevisions.StepAppendsOrClears | pmcluster/internal/store/stacks.go:49-194 | Each step of such a run leaves a stack's history, clears it by undeploying, or appends one row under an id larger than all before. |
| StackRevisions.BackwardClockMisleadsSync | pmcluster/internal/store/stacks.go:177-194 | If the clock goes back below a gap, the next deploy gets an id below the largest one, and a sync keeps reading the older row. |
| StackRevisions.NewestRevisionRuns | pmcluster/internal/stacks/deploy.go:90-395 | Along every run with a forward clock and no failing deploy, each stack runs the compose of its newest revision. |
| StackSync.SyncSkipsIff | pmcluster/internal/stacks/deploy.go:239-262 | While each stack runs its newest revision, a sync skips if and only if that revision carries a hash and its manifest was just translated to exactly what is running; for a nice manifest, if and only if what is running is a translation of it. Skipping changes nothing. |
| StackSync.SyncAfterDeployIff | pmcluster/internal/stacks/deploy.go:225-270 | Right after a deploy with unchanged inputs a sync skips if and only if it translates the manifest, without the payload's version override, to the deployed text again; for a nice manifest without an override it always does and changes nothing. |
| StackSync.NiceAlwaysSkips | pmcluster/internal/stacks/deploy.go:225-270 | Without an override and with a nice manifest, every sync that can follow a deploy skips, whatever the map orders. |
| StackSync.RawFieldAlwaysSkips | pmcluster/internal/stacks/deploy.go:225-270 | In particular for a manifest with one raw builtin field, if that field mentions no other builtin or no text of the manifest holds its placeholder. |
| StackSync.ProducesOnce | pmcluster/internal/stacks/deploy.go:150-166 | A nice manifest translates to one text only. |
| UnsettledManifest.CompilesTwice | pmcluster/internal/manifest/interpolate.go:26-56 | A whole family of valid manifests in the other case, with a registry `${env}…` and the image `${registry}`, compiles to two documents that run different images. |
| UnsettledManifest.TrapIsRaw | pmcluster/internal/manifest/interpolate.go:26-32 | These manifests have one raw field, the registry; it mentions another builtin and a text holds its placeholder, so they are not nice. |
| UnsettledManifest.SyncRedeploysAnotherImage | pmcluster/internal/stacks/deploy.go:225-270 | The bad run: deploy such a manifest and sync with unchanged inputs and no failure. The sync can translate it to the other image, does not skip, and replaces what was just deployed. |
| StackSync.FailedDeployIsSkippedBySync | pmcluster/internal/stacks/deploy.go:167-200 | The bad run: the revision is recorded before the deploy, so after a failed deploy or backup a sync of a nice manifest deployed without an override takes the recorded hash at its word, skips and changes nothing. What is then running is the recorded compose if and only if a blocked backup found it running already or the failed deploy left just that. |
| StackSync.HalfUndeployedIsSkipped | pmcluster/internal/stacks/deploy.go:401-479 | After an undeploy that failed on the records nothing runs, and a sync skips all the same if and only if it translates the manifest to the recorded text. |
| StackRevisions.RollbackReapplies | pmcluster/internal/stacks/deploy.go:308-395 | A successful rollback runs the old compose under a new largest id carrying the old source and hash, and forgets no revision. |
| RateLimiter.PerIPLimiter.AllowIP | pmcluster/internal/edgeproxy/ratelimit.go:40-59 | The eviction loop over the map in any order, the lazy bucket and the take leave exactly the specified table and answer. |
| RateLimiter.PassesIff | pmcluster/internal/edgeproxy/ratelimit.go:40-59 | A request passes if and only if the burst is positive and its address is new or holds a whole token, with rate times the time since the last grant added. |
| RateLimiter.TableAfter | pmcluster/internal/edgeproxy/ratelimit.go:40-59 | The table after a request: a refusal leaves the bucket alone, and other entries stay, except that a new address drops exactly those idle for longer than the window. |
| RateLimiter.RefillsExactly | pmcluster/internal/edgeproxy/ratelimit.go:54-58 | A new address that takes some of its burst is granted n requests later if and only if n is at most the burst and at most what is left plus rate times the time between. |
| RateLimiter.EvictionUnobservableIff | pmcluster/internal/edgeproxy/ratelimit.go:27-59 | Every time-ordered request sequence is answered exactly as by a limiter that never evicts if and only if one idle window refills a whole bucket. |
| RateLimiter.Burst | pmcluster/internal/edgeproxy/ratelimit.go:54-58 | n requests of one address at one instant are all granted if and only if its bucket holds n tokens, and then n fewer are left. |
| RateLimiter.WindowBound | pmcluster/internal/edgeproxy/ratelimit.go:40-59 | In every window of a time-ordered sequence no address gets more than burst + rate * length passes, without eviction or with an idle window that refills a bucket. |
| AutoBan.AutoBan.RecordFailure | pmcluster/internal/edgeproxy/blocklist.go:149-163 | Undisturbed, one call counts, and at the threshold stores the ban and clears the count; a threshold of zero or less does nothing. |
| AutoBan.SectionsInARow | pmcluster/internal/edgeproxy/blocklist.go:149-163 | The three critical sections of one call, in a row, do what an undisturbed call does: the failure that reaches the threshold bans its address and clears its count, and no other address is touched. |
| AutoBan.AutoBan.Banned | pmcluster/internal/edgeproxy/blocklist.go:22-34 | An address is banned if and only if its expiry has not passed; an expired ban is forgotten, nothing else changes. |
| AutoBan.EveryRoundBans | pmcluster/internal/edgeproxy/blocklist.go:149-163 | Without concurrency the count is the number of failures modulo the threshold, and the standing ban is the one set when the last full round ended. |
| AutoBan.ReachableOk | pmcluster/internal/edgeproxy/blocklist.go:149-163 | What every interleaving of the three critical sections keeps for each address: how counts, calls between sections, returned calls and bans are related. |
| AutoBan.EveryInterleaving | pmcluster/internal/edgeproxy/blocklist.go:149-163 | Over all interleavings: with no call between its sections the count is below the threshold; a ban means at least threshold failures were counted, and each further ban one more; threshold returned calls force a ban. |
| AutoBan.EveryRoundBansIff | pmcluster/internal/edgeproxy/blocklist.go:149-163 | Along a run an address is banned exactly once per full round of counted failures, at every moment, if and only if the threshold is one or none of its failures is counted while another of its calls is between its sections. |
| AutoBan.RoundsWithoutOverlap | pmcluster/internal/edgeproxy/blocklist.go:149-163 | Without such an overlap nothing is ever wiped: the count is the failures modulo the threshold, and a full round more for each call that is still to ban or clear. |
| AutoBan.ClearCanWipeAFailure | pmcluster/internal/edgeproxy/blocklist.go:157-162 | One run with an overlap, step by step: a slow call's clear wipes a failure counted after its ban, so two more failures at threshold two do not ban again. |
| Manifest.ParseEnvRefIff | pmcluster/internal/refs/envref.go:22-28 | A value parses as a reference of a kind if and only if it is that keyword, a non-empty text without closing parenthesis, and a closing parenthesis, with nothing around it. |
| Manifest.ParseWrittenRef | pmcluster/internal/refs/envref.go:22-28 | Writing a reference and parsing it gives it back, for every name without surrounding space or closing parenthesis. |
| Manifest.RejectedIff | pmcluster/internal/manifest/validate.go:24-136 | A manifest is rejected if and only if it has one of the listed defects of names, ports, hosts, replicas, placement, volumes, references, probes or update policy. |
| Placeholders.Substitute | pmcluster/internal/manifest/interpolate.go:117-135 | The loop over the builtins map gives what replacing them one after another in some order of the keys gives, followed by one pass over environment placeholders; any unset variable fails the whole text. |
| Placeholders.ReplaceIsSplice | pmcluster/internal/manifest/interpolate.go:118-120 | On texts in which every dollar sign starts a complete placeholder, replacing a text everywhere replaces exactly the placeholders of that name. |
| Placeholders.EveryOrderIsSimultaneous | pmcluster/internal/manifest/interpolate.go:117-120 | On a text that mentions only builtins whose values mention no other builtin, every map order gives the one simultaneous substitution. |
| Placeholders.OrdersAgreeIff | pmcluster/internal/manifest/interpolate.go:117-120 | All texts come out the same in all map orders if and only if no builtin's value mentions another builtin that does not stand for itself. |
| Placeholders.UnsettledOrdersDiffer | pmcluster/internal/manifest/interpolate.go:117-120 | For every value that does mention one, two orders and a text are given on which they disagree. |
| Placeholders.PassFills | pmcluster/internal/manifest/interpolate.go:121-131 | The environment pass fills every variable placeholder at once and reports exactly the unset ones, in order. |
| Placeholders.SubstituteIsSimultaneous | pmcluster/internal/manifest/interpolate.go:117-135 | Substitution in any order gives the simultaneous one and fails if and only if that mentions an unset variable. |
| Placeholders.PlainSubstitution | pmcluster/internal/manifest/interpolate.go:117-135 | With builtin values free of dollar signs no builtin placeholder is left, and substitution fails if and only if the text itself names an unset variable. |
| Interpolate.Draft.Interpolate | pmcluster/internal/manifest/interpolate.go:22-56 | For every manifest, every text is rendered in some map order, from builtins captured before the first change; name, environment and everything that is not a text stay. On failure some text of the manifest fails, and every text is rendered or untouched. |
| Interpolate.InterpolateService | pmcluster/internal/manifest/interpolate.go:58-115 | The same for one service: image, command, entrypoint, environment, volumes, host and aliases, and nothing else. |
| Templates.TextMeans | pmcluster/internal/manifest/interpolate.go:12-135 | Among builtin fields without placeholders, any text put together from plain parts, the five builtins and variables means what its parts say: in every map order substitution gives exactly that, and fails if and only if a variable is not set. |
| StackContents.InterpolatedFields | pmcluster/internal/manifest/interpolate.go:22-115 | Field by field: each text of the result is a rendering of the text at the same place, and name, environment, secrets of services, replicas, probes and policies are the manifest's. |
| Interpolate.InterpolationIsDetermined | pmcluster/internal/manifest/interpolate.go:22-115 | With nice texts interpolation has one outcome although it walks maps in any order: it fails if and only if some text names an unset variable, else every text has become its simultaneous substitution. |
| RawValues.OrderGives | pmcluster/internal/manifest/interpolate.go:117-120 | With one raw value among the builtins, what each map order makes of a text: it depends only on which builtins come behind the raw one. |
| RawValues.TextOrdersAgreeIff | pmcluster/internal/manifest/interpolate.go:117-120 | All map orders agree on a text if and only if it does not hold the raw value's placeholder or that value mentions no other builtin. |
| RawValues.FailsInAllOrders | pmcluster/internal/manifest/interpolate.go:121-135 | Substitution of a text fails for unset variables in one order if and only if it does in all. |
| RawFields.RawFieldIff | pmcluster/internal/manifest/interpolate.go:22-115 | Builtins are captured raw. For a manifest of well-formed texts with one raw builtin field, interpolation has one outcome if and only if that field mentions no other builtin, or no text of the manifest holds its placeholder, or some text names an unset variable; it is nice exactly in the first two cases. |
| RawFields.RawDomainIff | pmcluster/internal/manifest/interpolate.go:26-32 | The domain in particular, with the other four builtins by name. |
| Compose.ResolveServiceEnv | pmcluster/internal/manifest/translate.go:201-235 | The loop over the map resolves every value if and only if every config reference resolves and no value is malformed. |
| Compose.TranslateServices | pmcluster/internal/manifest/translate.go:79-95 | Whatever order the services are walked in, each is translated once, or translation fails if and only if some environment does not resolve. |
| Compose.CollectVolumes | pmcluster/internal/manifest/translate.go:97-113 | The named volumes are exactly the sources, neither relative nor absolute paths, of some service's volumes. |
| Compose.BuildIR | pmcluster/internal/manifest/translate.go:79-128 | Success does not depend on map order, and the result holds exactly the translated services, named volumes and secrets. |
| Compose.Write | pmcluster/internal/manifest/compose_writer.go:30-92 | The loops write the document that the representation fixes, with no regard to the order of its lists. |
| DocumentFields.ServiceFields | pmcluster/internal/manifest/compose_writer.go:95-235 | What a service of the document runs, how often and where: image, command, entrypoint, secrets and networks of the manifest; replicas, restart, constraints and update policy per case with their defaults; the probe each shorthand stands for. |
| DocumentFields.LabelsAre | pmcluster/internal/manifest/compose_writer.go:229-288 | All labels of a service, by their literal names: the four standard ones, the log label, and for an exposed service the server port, a router for the host and for each alias, and the CORS middleware; there are no others and none overwrites another. |
| DocumentFields.EnvironmentFields | pmcluster/internal/manifest/translate.go:201-235 | A plain value is itself, `config(name)` is the content stored under the name, which has no line break, and `secrets(name)` is the path of its file, padded or not. |
| DocumentFields.TranslatesIff | pmcluster/internal/manifest/translate.go:201-235 | A manifest has a document if and only if every reference to a config finds a stored content without line break and none to a secret is blank. |
| DocumentFields.MountFields | pmcluster/internal/manifest/compose_writer.go:123-139 | Each mount keeps its place and target: a bind's source becomes `<root>/<app>/` and its last path element, any other mount is unchanged. |
| DocumentFields.Declarations | pmcluster/internal/manifest/compose_writer.go:51-85 | The networks, volumes with their directories, and secrets a document declares, read off the manifest, and nothing else. |
| DocumentFields.OriginsAdmitted | pmcluster/internal/manifest/compose_writer.go:296-308 | For hosts without pattern characters, the CORS pattern admits exactly `https://` and the host or an alias; its dots match only dots. |
| ComposeTheorems.OrderDoesNotMatter | pmcluster/internal/manifest/compose_writer.go:30-92 | Any permutation of services, volumes and secrets gives the same document. |
| ComposeTheorems.TranslateIR | pmcluster/internal/manifest/translate.go:65-128 | From manifest to document: fails if and only if some env value does not resolve, else gives a document of that manifest. |
| ComposeTheorems.DocumentIsUnique | pmcluster/internal/manifest/translate.go:65-74 | A manifest has one document, whatever orders the maps were walked in. |
| ComposeTheorems.ClosedIff | pmcluster/internal/manifest/compose_writer.go:30-92 | The document of a validated manifest declares every network, named volume and secret its services use if and only if no volume has an empty source, which validation accepts, and, under a root that is no absolute path, no bind is moved to the name of an undeclared volume. |
| ComposeTheorems.SecretRefsAreMounted | pmcluster/internal/manifest/translate.go:201-235 | Every env value that refers to a secret becomes `/run/secrets/<name>`, and that same service mounts the secret, which is declared. |
| ComposeTheorems.PrivateNetworkIff | pmcluster/internal/manifest/compose_writer.go:69-82 | The app's private network is its own overlay if and only if the app is not an exposed one named `traefik` or `monitoring`. |
| ComposeTheorems.ReplicasIff | pmcluster/internal/manifest/compose_writer.go:190-205 | A service gets the replicas it asked for if and only if it did not ask for zero, which is deployed as one. |
| ComposeTheorems.EveryHostIsRouted | pmcluster/internal/manifest/compose_writer.go:252-288 | An exposed service's labels hold a complete router, with its middleware, for its host and one for each alias, and define the middleware these name if it is the service's own; no label overwrites another's. |
| ComposeTheorems.RouterNamesIff | pmcluster/internal/manifest/compose_writer.go:252-288 | Within one app, routers of different services share a name if and only if a service is called like another one's alias router. |
| ComposeTheorems.EscapeSurvives | pmcluster/internal/manifest/compose_writer.go:290-294 | An escaped text comes out of Compose's own interpolation unchanged, for every text. |
| ComposeTheorems.ScopesCollideIff | pmcluster/internal/manifest/compose_writer.go:252-262 | Two validated apps can have services of one router scope if and only if one name is the other, a dash, and a rest that starts with a letter. |
| VolumePaths.DirectoryOf | pmcluster/internal/manifest/compose_writer.go:56-67 | A bind gets its host directory by a new mount source, a named volume by its declaration, and both are `<root>/<app>/` and one element or name; the mount names it up to its first colon, under every root. |
| VolumePaths.VolumesStayUnderAppIff | pmcluster/internal/manifest/compose_writer.go:123-139 | For a validated manifest and an absolute root, clean or not, every host directory of its document is at or below `<root>/<app>`, as documented, if and only if no bind ends in `..`, no named volume climbs out and stays out, and a root with a colon, at which binds are cut, still ends below the place there. |
| VolumePaths.DirectorySharedIff | pmcluster/internal/manifest/compose_writer.go:123-139 | Two mounts of a document are one directory of the host if and only if their sources lead to the same cleaned components: `data` and `./data` do, and so do a bind of `/a/data` and the volume `data`. |
| VolumePaths.BindsShareIff | pmcluster/internal/manifest/compose_writer.go:123-139 | Under a root without a colon two binds lead to one directory if and only if they end in the same element, or both end in none. |
| VolumePaths.PlainVolumesShareIff | pmcluster/internal/manifest/compose_writer.go:56-67 | Volumes that do not climb lead to one directory if and only if their cleaned elements or names are equal. |
| VolumePaths.BaseOfPath | pmcluster/internal/manifest/compose_writer.go:123-139 | A bind contributes the last component of its path, so `/a/data`, `/b/data` and the named volume `data` meet in one directory. |
| ManifestPipeline.Compile | pmcluster/internal/stacks/deploy.go:150-166 | Interpolation, validation and translation in that order, for every manifest: the outcome is one that some map orders allow. |
| ManifestPipeline.OutcomeIs | pmcluster/internal/stacks/deploy.go:150-166 | For a nice manifest, which stage fails is decided by the manifest in which every text is its simultaneous substitution, and success gives the document of that manifest. |
| ManifestPipeline.CompilesOnce | pmcluster/internal/stacks/deploy.go:150-166 | Any two compilations of such a manifest end with the same error or the same document. |
| Splitting.SplitIff | pmcluster/internal/docker/client.go:409-418 | `strings.Split`: the one list of separator-free pieces that joins to the text. |
| LogDemux.SplitLines | pmcluster/internal/docker/client.go:409-418 | Exactly the non-empty pieces between newlines, in order, tagged with the stream. |
| LogDemux.DemuxLines | pmcluster/internal/docker/client.go:378-406 | Trimming after every frame gives the last `tail` lines of everything read, for every byte stream, and the same errors. |
| LogDemux.ReadsBytes | pmcluster/internal/docker/client.go:382-405 | One frame byte by byte: the stream in the first byte, the length in four bytes, the highest first; a length of zero or over 16 MiB ends the reading, and bytes that break off fail it. |
| LogDemux.LinesAre | pmcluster/internal/docker/client.go:409-418 | A text without line feed is one line unless it is empty, and texts around a line feed give their lines one after the other. |
| LogDemux.ReadsFrames | pmcluster/internal/docker/client.go:378-406 | Reading encoded frames gives their lines in order, then whatever follows them. |
| LogDemux.DemuxOfEncoded | pmcluster/internal/docker/client.go:378-406 | For any list of frames of 1 byte to 16 MiB all lines of all frames are read, interleaving kept; an unclean end is an error. |
| LogDemux.Decompose | pmcluster/internal/docker/client.go:382-405 | Every byte stream is a list of frames and a rest from which no frame can be read. |
| LogDemux.DemuxIff | pmcluster/internal/docker/client.go:378-406 | Reading succeeds if and only if that rest is a clean end or a frame of a bad size, and then gives the lines of the frames. |
| LogDemux.BadFrameHidesRest | pmcluster/internal/docker/client.go:389-392 | A frame of size zero or over the limit ends the reading with no error; nothing behind it is read. |
| Migrations.Database.ApplyMigration | pmcluster/internal/store/migrations.go:82-99 | Body and version row together or not at all. |
| Migrations.Database.RunMigrations | pmcluster/internal/store/migrations.go:18-47 | The loop, against the versions known at its start, leaves the state its steps give, and reports whether it got through. |
| Migrations.NamedBy | pmcluster/internal/store/migrations.go:33-38 | The version of a migration is its file name without `.sql`. |
| Migrations.PrefixStays | pmcluster/internal/store/migrations.go:18-47 | Any run, failing anywhere, keeps the applied set a prefix of the list with the database equal to exactly those bodies in order, each once, and stops at the first migration it cannot apply. |
| Migrations.RunOkIff | pmcluster/internal/store/migrations.go:18-47 | A run succeeds if and only if none of the migrations still to be applied is blocked by a fault or by its body failing. |
| Migrations.ResumeReachesTheSame | pmcluster/internal/store/migrations.go:18-47 | However many runs fail and wherever, a run that then succeeds leaves exactly the state of one uninterrupted run on the fresh database: all versions, and the fold of all bodies. |
| Migrations.RunsMissing | pmcluster/internal/store/migrations.go:18-47 | Whatever set of versions is recorded, a run applies the missing migrations in list order behind everything applied before; it succeeds if and only if none is faulty and all bodies go through in that order, and then the database is the fold of that order. |
| Migrations.RunsInOrderIff | pmcluster/internal/store/migrations.go:33-45 | That order is the documented lexicographic one if and only if the recorded migrations come first in the list. |
| Migrations.InsertedMigrationRunsLast | pmcluster/internal/store/migrations.go:33-45 | The instance: a migration that a later build inserts in front of a recorded one runs behind all recorded ones, and the database becomes that of the other order. |
| ArchivePaths.Filesystem.RestoreArchive | pmcluster/internal/backups/browse.go:257-323 | The entry loop writes, counts and stops as specified, for every list of entries and every failure: refused paths, files cut short, and an archive that breaks off. |
| ArchivePaths.EntryCases | pmcluster/internal/backups/browse.go:257-323 | What one entry in front of others does, by its kind and by what the filesystem does with it. |
| Paths.CleanRules | pmcluster/internal/backups/browse.go:181-191 | How an absolute path is cleaned: empty components and dots go, a name goes with the two dots behind it, two dots at the root go, and a path of names is clean. |
| Paths.JoinBelowIff | pmcluster/internal/backups/browse.go:296-300 | For any text joined to a rooted path, the cleaned result is at or below that path if and only if the text comes back down whatever it climbs. |
| Paths.AcceptedIsBelow | pmcluster/internal/backups/browse.go:296-300 | On clean absolute paths the string prefix check is the component-wise one. |
| ArchivePaths.AcceptedIff | pmcluster/internal/backups/browse.go:181-207 | For every entry name, `..` included, the destination is fixed by the cleaned components, and the check admits it if and only if it is at or below the target; that is the case exactly when the name comes back down the way it climbed. |
| ArchivePaths.PrefixComponents | pmcluster/internal/backups/browse.go:181-207 | The two baked-in prefixes are the component lists the other results are stated with. |
| ArchivePaths.PlainEntry | pmcluster/internal/backups/browse.go:181-207 | An entry whose cleaned name is the prefix followed by p goes to target/p and is admitted. |
| ArchivePaths.NothingOutsideChanges | pmcluster/internal/backups/browse.go:296-320 | Whatever the archive holds and however the restore ends, no file outside the target changes. |
| ArchivePaths.EscapeKeepsEarlier | pmcluster/internal/backups/browse.go:298-300 | An escaping entry ends the restore with its name, whatever follows it; what the entries before it wrote stays and is counted. |
| ArchivePaths.EntrySpellings | pmcluster/internal/backups/browse.go:181-191 | Entry names with and without leading slash have the components they spell. |
| ArchivePaths.RestoreRoundTrip | pmcluster/internal/backups/browse.go:257-323 | Restoring an archive of a tree puts every file with its content at its path below the target, counts them all, and changes nothing else. |

## Left out

- YAML, JSON and Go template text: rendering is a function of its inputs, and a Compose document is a record and not its text.
- Docker, SQLite, the filesystem and tar decoding themselves: maps with operations that may fail; an error of a read or a listing before anything changes is not a separate outcome.
- Columns that only record times or payload JSON, error messages, and everything printed or traced.
- Version numbers of swarm objects beyond 64 bits, at which scanning fails in the code.
- A missing settings store for recorded hashes: the vault always has one.
- Secrets that exist without the label the listing asks for: to the model they are creates that fail.
- The cluster's own certificate in `ApplyCert`, which writes files and leaves minting to the update; `PlatformUpdate` covers that minting.
- The SSO cookie's own swarm secret and the encryption of credentials: minting the credential stores a value.
- HostCerts.CertManager.ApplyCert: is for hosts other than the cluster's own; whether host and certificate are valid is a parameter, and what the refresh does elsewhere is a separate event of the runs.
- StackRevisions.Service.DeployStack: parsing a manifest and marshalling a document are functions, and the version override replaces the version before interpolation; the texts themselves are not modelled.
- Two deploys of one stack at the same time, between finding the free id and recording it.
- Deletion of a stack's volumes and secrets in `Undeploy`, which is best effort and read by nothing else here.
- RateLimiter.PerIPLimiter.AllowIP: tokens and times are real numbers where the code rounds to floating point and nanoseconds, and the two clock readings of one call are one.
- AutoBan.AutoBan.RecordFailure: one undisturbed call; the interleavings of its sections are the events of `AutoBan.Run`.
- Interpolate.InterpolateService: a service entry that is nil, on which the code panics.
- VolumePaths.VolumesStayUnderAppIff: is for an absolute volume root, which the setting's description asks for; what Docker makes of a relative one is not modelled.
- VolumePaths.DirectorySharedIff: likewise.
- LogDemux.DemuxLines: the stream is all of its bytes and how it ends; blocking reads are not modelled.
- Migrations.Database.RunMigrations: a migration body that ends the transaction itself, and the sorting of the embedded listing, which comes to the model as a list of distinct names.
- ArchivePaths.Filesystem.RestoreArchive: directories are not recorded, and symbolic links are followed by nothing.
- The choice between archive kinds, restoring raw directories, and `refuseControlPlaneArchive`.
- The hostname pattern of the validator, which is a parameter.
- DocumentFields.OriginsAdmitted: reads the one kind of pattern the writer makes, anchored alternatives of literal texts; it is for hosts without `|` and backslash, which the hostname pattern excludes.
- PlatformRuns.RunConverges: the render input of an `up` is a parameter but for the sign-on settings; the credentials and certificates it stores are the runs' changes of these.
- StackSync.SyncAlwaysSkipsIff: is stated with the manifest's translations, because marshalling is arbitrary and a difference between two interpolations need not reach the document, so that no condition on the manifest alone is exact; `StackSync.NiceAlwaysSkips` and `StackSync.RawFieldAlwaysSkips` are the conditions that can be checked, and `UnsettledManifest` the other half.
- The console, HTTP handlers, webhooks, the wizard, telemetry, leader polling, and the plain record stores: plumbing or easy members.
