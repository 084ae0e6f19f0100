# vmcp operator: a verified model

The operator keeps a fleet of vmcp gateways in step with Kubernetes custom resources. This project
models the parts of it whose correctness is not visible in one function: a concurrent reconcile protocol,
printers with their parsers, pairs of components that were written apart and must agree, and small
planners whose promises are about whole runs. Everything is stated over all inputs, all runs or all
reachable states; where the code does not keep a promise, there is a witness and, next to it, the exact
condition under which it does.

| file | what it models |
|---|---|
| `Common`, `TextMeaning` | options, results, code-point string order, stable sort, sorted key enumeration, ASCII case and white space |
| `Finalizers` | finalizer decisions, the patch schedule and its transforms on a resource body |
| `Protocol` | the two Kopf handlers as threads that interleave at every `await`, the per-gateway lock, list-then-apply sections, patch delivery, and the cluster's users |
| `ProtocolSafety`, `ProtocolFinalizers`, `ProtocolRuns` | inductive invariants of the protocol and the theorems over reachable states |
| `ProtocolSteps`, `ProtocolLimits` | building concrete runs; three runs that show where the guarantees end |
| `ProtocolUsers` | which object each edit of the cluster's users touches, and the order of a handler's steps |
| `ProtocolPasses` | what one pass does to the cluster, alone and in company: who ends up protected, what is applied in which order |
| `ProtocolDeletion` | deleting a gateway: it goes after its last MCP; bound on and completion of the passes |
| `Reconcile` | one apply pass: owner references in place, objects and attachments applied in order |
| `McpCodec`, `McpCodecRoundTrip` | `map_mcp` and `mcp_to_crd` over JSON, round trip and normal form |
| `McpReading` (with `PyValues`), `McpDefaults`, `McpPrinting` | the record a resource describes, as a relation that names every key and default; which keys may be left out; the shape of what is printed |
| `Catalog`, `CatalogReading` | the in-memory catalog and the catalog over custom resources; what their listings and lookups hold |
| `ManageMcp`, `UpdateEffects` | add, update, remove and list as a state machine; what each command changes, field by field |
| `ControlPlane`, `AddBodyReading` | the same use cases over the custom resources, records from add bodies, agreement of the two; the record an add body describes |
| `Routes`, `RoutesMeaning` | route inheritance, extra routes, HTTPRoute names; the routes a resource describes |
| `Naming`, `Artifacts`, `Bundle`, `BundleFacts` | identifiers, sidecars, registry, skills, the artifact bundle and its digest |
| `BundleMeaning` | exactly when there is a bundle, which files it holds, and its size in UTF-8 |
| `GatewayArtifacts`, `GatewayMeaning` | from MCP records to bundle entries and to the Deployment's environment; where every upstream URL leads |
| `ConfigMapKeys` | flattening paths into ConfigMap keys and the init script that expands them |
| `HeaderFilters`, `HeaderMeaning` | route configuration to one header modifier, and what that does to any header map |
| `EarlyStrip`, `EarlyStripMeaning` | the listener policies that strip identity headers before authentication; their names, targets and order |
| `NlText`, `NlFields`, `NlQuotes`, `NlCrud` | the natural-language command parser, its field scanner and a canonical printer |
| `NlGrammar`, `NlFieldGrammar`, `NlLetters` | what the words and the fields of a command mean, in both languages |
| `RateLimiter`, `Connection`, `SkillsSync`, `ImagePolicy` (with `Search`), `ImageMeaning` | sliding-window limiter, reconnect phases, skills sync over runs, image references and the allowlist |

Loops, mutable dictionaries and objects of the source are methods and classes proved against specification
functions; the theorems are about those functions. Pure code is functions and lemmas. The asynchronous
handlers are one transition relation, `Protocol.Do`, whose steps are the stretches between two `await`s. Each
parser, planner and renderer has a second description that does not follow its code: a relation between input
and result with every key, default, word and limit written out. A theorem says that the two agree, in both
directions.

## Main results

* Over every interleaving of handlers, users and crashes: one section per gateway; listings behind applies never
  go back in time; the Deployment is never ahead of its ConfigMap; and when the listing of the last completed
  section is still current, every object rendered from a listing is rendered from the current catalog. A pass
  that drops a gateway finalizer saw the deletion timestamp and its own empty locked listing, later than the
  delete request; one that drops an MCP finalizer saw the deletion timestamp and its own true unregister answer;
  nothing else takes these finalizers.
* A pass of a live object leaves it protected, its gateway missing or not. In company: when such a pass is through
  and its patch is delivered, an object that is still there holds the finalizer exactly when the pass saw it
  without, or never got past a missing gateway, or nobody has taken it since (`ProtocolPasses.LivePassProtects`).
* While nobody attaches MCPs, a gateway keeps its finalizer until its last MCP is gone.
* The three runs in `ProtocolLimits` mark the limits, each with its exact condition. An MCP attached between the
  locked listing and the delivery of the patch is orphaned (`ProtocolDeletion.OrphanedIff`). A gateway pass
  queued behind a newer MCP pass puts an older spec back (`ProtocolRuns.PassStepsBackIff`). A route, listener
  policy or attachment that the spec gave up remains, because nothing deletes it (`ProtocolRuns.LeftoverIff`).
* `map_mcp` gives a record exactly when the resource describes it, for resources that lack keys as well; a key may be
  left out exactly when the record has the schema's value for it. An update changes the fields it names and no
  other, and succeeds exactly when they suit the record.
* `map_mcp` undoes `mcp_to_crd` exactly on canonical records, and the two catalogs answer every legal call
  sequence alike; so the control plane over custom resources answers every sequence of commands, with records
  from add bodies, like the one over the dict (`ControlPlane.ControlPlanesAgree`).
* Registry references and Deployment variables agree in order across the Python/Rust boundary, and for
  lower-case names the variables are distinct because the registry rejects what would clash.
* There is a bundle exactly for acceptable input that fits, and then it holds exactly the files that belong to it; its
  contents do not depend on input order, and its digest material determines its files.
* The init script restores a path if and only if no underscore in it is followed by an underscore or a slash, and
  the directory it builds from a bundle's ConfigMap is the bundle.
* For every header map: the value every header has after a route, in terms of the route's settings alone.
* A parent gateway's policy survives the plan exactly when the last parent with its policy name has its target. Its
  name is legal exactly when the cut at 253 characters does not end in a dash.
* The command parser understands an intent exactly when the words mean it, in both languages. No text matches two
  command patterns; print-then-parse is the identity on intents, and what was understood
  can be said again canonically if and only if no text of an update holds both kinds of quotes.

## Model

| member | source | states |
|---|---|---|
| Finalizers.GatewayDecisionSettles | python/vmcp_operator/domain/usecases/finalizers.py:29-54 | carrying out a gateway decision leaves the finalizer there unless the gateway dies childless, keeps all others, and a second decision schedules nothing; deletion is held up exactly while children remain |
| Finalizers.McpDecisionSettles | python/vmcp_operator/domain/usecases/finalizers.py:57-82 | the same for an MCP with the unregister answer in place of the children |
| Finalizers.Body.Ensure | python/vmcp_operator/adapters/driving/k8s/finalizer_patch.py:9-16 | appends the name once; fails on an explicit null list |
| Finalizers.Body.Drop | python/vmcp_operator/adapters/driving/k8s/finalizer_patch.py:18-24 | removes every occurrence and keeps the rest in place |
| Finalizers.Patch.ScheduleAdds | python/vmcp_operator/adapters/driving/k8s/finalizer_patch.py:27-30 | appends one ensure per name to the schedule |
| Finalizers.Patch.ScheduleRemoves | python/vmcp_operator/adapters/driving/k8s/finalizer_patch.py:33-36 | appends one drop per name to the schedule |
| Finalizers.ApplyFnsToBody | python/vmcp_operator/adapters/driving/k8s/finalizer_patch.py:39-44 | runs the schedule in order; exactly when a null list survives it |
| Finalizers.ForeignUntouched | python/vmcp_operator/adapters/driving/k8s/finalizer_patch.py:9-36 | finalizers of other controllers are never added, dropped or reordered, whatever is scheduled |
| Finalizers.LastEntryDecides | python/vmcp_operator/adapters/driving/k8s/finalizer_patch.py:9-36 | a name's last scheduled entry decides its presence |
| Finalizers.RerunIsNoOp | python/vmcp_operator/adapters/driving/k8s/finalizer_patch.py:9-44 | re-running the transforms of one pass changes nothing |
| Finalizers.MixedScheduleRotates | python/vmcp_operator/adapters/driving/k8s/finalizer_patch.py:9-44 | witness: a mixed schedule is not re-runnable |
| ProtocolSafety.LockStep | python/vmcp_operator/adapters/driving/k8s/handlers.py:39-48 | every step keeps: each lock is held by exactly the thread inside that gateway's section |
| ProtocolSafety.SnapStep | python/vmcp_operator/adapters/driving/k8s/handlers.py:165-193 | every step keeps: recorded snapshots are true listings of their moment, logs are sorted by listing time, a settled section applied all its manifests in order at the end of the log |
| ProtocolFinalizers.GatewayStep | python/vmcp_operator/adapters/driving/k8s/handlers.py:165-196 | every step keeps: a pass with the drop in its patch saw the deletion timestamp and its own empty locked listing, later than the delete request; a lost finalizer was taken by such a pass |
| ProtocolFinalizers.McpStep | python/vmcp_operator/adapters/driving/k8s/handlers.py:265-323 | every step keeps: a pass with the drop in its patch saw the deletion timestamp and a true answer to its own unregister call; a lost finalizer was taken by such a pass |
| ProtocolRuns.InvStep | python/vmcp_operator/adapters/driving/k8s/handlers.py:118-334 | the conjunction of all protocol invariants is inductive |
| ProtocolRuns.OneSectionPerGateway | python/vmcp_operator/adapters/driving/k8s/handlers.py:36-48 | in no reachable state are two handlers inside one gateway's section |
| ProtocolRuns.StaleListsNeverWin | python/vmcp_operator/adapters/driving/k8s/handlers.py:165-193 | successive applies for a gateway come from listings that never go back in time, and each listing is the catalog of its moment |
| ProtocolRuns.CurrentListMeansCurrentObjects | python/vmcp_operator/domain/usecases/render_gateway_manifests.py:53-204 | when the last completed section's listing is still current, every object rendered from a listing is rendered from the present catalog, without exception; these are the ConfigMap and the Deployment, save one that the settled spec itself replaces by an attachment; every object the settled spec gives is that section's own |
| ProtocolRuns.DeploymentNeverAhead | python/vmcp_operator/domain/usecases/render_gateway_manifests.py:204-204 | in no reachable state is the Deployment rendered from a newer listing than its ConfigMap |
| ProtocolRuns.LeftoverIff | python/vmcp_operator/adapters/driving/k8s/reconcile.py:43-54 | an object of another spec revision than the settled one remains if and only if it was once applied at a slot that the settled spec does not give |
| ProtocolRuns.LeftoverIsOlder | python/vmcp_operator/adapters/driving/k8s/reconcile.py:43-54 | it is of an older revision when the newest spec is settled or an MCP pass settled it |
| ProtocolRuns.SpecGoesBackOnlyOnGatewayPass | python/vmcp_operator/adapters/driving/k8s/handlers.py:142-193 | an apply with an older spec than an earlier one is made by a gateway pass, never by an MCP pass |
| ProtocolRuns.PassStepsBackIff | python/vmcp_operator/adapters/driving/k8s/handlers.py:142-193 | the applies of a gateway pass go behind an earlier one if and only if, when it took the lock, a newer revision than its event's had been applied |
| ProtocolRuns.FreshPassNeverStepsBack | python/vmcp_operator/adapters/driving/k8s/handlers.py:142-193 | a pass whose event is still the newest spec when it takes the lock never goes back |
| ProtocolRuns.GatewayDropsAreDrained | python/vmcp_operator/adapters/driving/k8s/handlers.py:165-192 | in every reachable state a pass with the gateway drop scheduled saw the deletion timestamp and its own empty listing at a version after the delete request |
| ProtocolRuns.McpDropsAreAnswered | python/vmcp_operator/adapters/driving/k8s/handlers.py:265-303 | in every reachable state a pass with the MCP drop scheduled saw the deletion timestamp and its own true answer |
| ProtocolRuns.GatewayLosesByDrop | python/vmcp_operator/adapters/driving/k8s/handlers.py:165-192 | the only step that takes a gateway's finalizer is the delivery of such a pass |
| ProtocolRuns.McpLosesByDrop | python/vmcp_operator/adapters/driving/k8s/handlers.py:265-303 | the only step that takes an MCP's finalizer is the delivery of such a pass |
| ProtocolRuns.GatewayOutlivesItsMcps | python/vmcp_operator/adapters/driving/k8s/handlers.py:165-192 | a protected gateway without its finalizer, or gone, was taken by a pass for it that saw the deletion timestamp and, later than the delete request, listed no MCP |
| ProtocolRuns.McpUnregistersBeforeGc | python/vmcp_operator/adapters/driving/k8s/handlers.py:265-303 | a protected MCP without its finalizer, or gone, was taken by a pass for it that saw the deletion timestamp and got true from its own unregister call |
| ProtocolRuns.DeliveryIsPolite | python/vmcp_operator/adapters/driving/k8s/finalizer_patch.py:9-44 | every patch a reachable handler delivers keeps foreign finalizers and is idempotent |
| ProtocolUsers.ProgramOrder | python/vmcp_operator/adapters/driving/k8s/handlers.py:118-334 | from each place a handler can take exactly the next step of its program, or crash; only a deleting MCP is unregistered, and before anything is decided |
| ProtocolPasses.McpPassAlone | python/vmcp_operator/adapters/driving/k8s/handlers.py:256-334 | an MCP pass that runs alone, whatever the MCP is like and whatever the unregister answer: a live MCP ends with the finalizer at the end of its list, its gateway present or not, and, when the gateway is there, with all of its manifests applied from the listing of that moment; a deleting one keeps everything on a false answer and loses the finalizer on a true one |
| ProtocolPasses.LiveMcpGetsProtected | python/vmcp_operator/adapters/driving/k8s/handlers.py:304-323 | a live MCP is protected once its first pass is delivered, also when its gateway is missing |
| ProtocolPasses.GatewayPassAlone | python/vmcp_operator/adapters/driving/k8s/handlers.py:142-196 | a gateway pass that runs alone: a live gateway ends with the finalizer and all of its manifests, applied from the listing of that moment; a deleting one keeps everything while an MCP is attached and loses the finalizer when none is |
| ProtocolPasses.LiveGatewayGetsProtected | python/vmcp_operator/adapters/driving/k8s/handlers.py:142-196 | a live gateway is protected once its first pass is delivered |
| ProtocolPasses.ManifestsInOrder | python/vmcp_operator/domain/usecases/render_gateway_manifests.py:204-240 | the manifests of a pass in order: volume claim, ConfigMap, Service, Deployment, then what the spec asks for |
| ProtocolPasses.LivePassProtects | python/vmcp_operator/adapters/driving/k8s/handlers.py:118-334 | over any run, whatever runs beside it: when a pass for a live object is through and its patch is delivered, the object, if it still exists, holds the finalizer if and only if the pass was called without it, or its gateway was missing, or it still held it |
| ProtocolLimits.LateMcpIsOrphaned | python/vmcp_operator/adapters/driving/k8s/handlers.py:165-192 | run: an MCP created after the locked listing is attached to a gateway that is gone |
| ProtocolLimits.StaleSpecCanWin | python/vmcp_operator/adapters/driving/k8s/handlers.py:142-193 | run: a gateway pass called with revision 1 waits behind an MCP pass, which applies revision 2; the gateway pass then puts revision 1 back |
| ProtocolLimits.LeftoverStays | python/vmcp_operator/domain/usecases/render_gateway_manifests.py:205-239 | run: a spec gives up a route, the next pass settles the new spec, and the route of the first revision is still there |
| ProtocolDeletion.FamilyStep | python/vmcp_operator/adapters/driving/k8s/handlers.py:172-192 | any step of a deletion removes nothing or exactly one object of the family, by a delivery |
| ProtocolDeletion.EffectivePassesCount | python/vmcp_operator/adapters/driving/k8s/handlers.py:172-192 | over any interleaving, effective passes plus what is left equals the family at the start; at most attached MCPs + 1 passes |
| ProtocolDeletion.GatewayGoesLast | python/vmcp_operator/adapters/driving/k8s/handlers.py:166-192 | while nobody attaches MCPs, a gateway with attached MCPs keeps its finalizer until the last of them is gone, deleting or not, whatever foreign finalizers there are |
| ProtocolDeletion.OrphanedIff | python/vmcp_operator/adapters/driving/k8s/handlers.py:166-192 | over any run from a pass's listing to the delivery that takes the finalizer: nothing was attached at the listing, and an MCP is orphaned if and only if a user attached it in between and did not detach it again |
| ProtocolDeletion.NoLateMcpNoOrphan | python/vmcp_operator/adapters/driving/k8s/handlers.py:166-192 | without an attaching edit in between nothing is orphaned |
| ProtocolDeletion.McpPass | python/vmcp_operator/adapters/driving/k8s/handlers.py:265-303 | a solo pass of a deleting MCP with a true unregister removes exactly that MCP |
| ProtocolDeletion.GatewayPass | python/vmcp_operator/adapters/driving/k8s/handlers.py:165-192 | a solo pass of a deleting gateway removes it when childless and changes nothing otherwise |
| ProtocolDeletion.DeletionFinishes | python/vmcp_operator/adapters/driving/k8s/handlers.py:142-303 | from any quiescent moment of the deletion every schedule of solo calls with one pass per attached MCP, in any order, and gateway passes at any time ends with nothing of the family left, and not before its last call |
| ProtocolDeletion.ShortestSchedule | python/vmcp_operator/adapters/driving/k8s/handlers.py:142-303 | the shortest such schedules have children + 1 calls |
| Reconcile.OwningIsIdempotent | python/vmcp_operator/adapters/driving/k8s/ownership.py:29-39 | owning twice is owning once; other owners keep their references; exactly one reference of this owner |
| Reconcile.OneControllerIff | python/vmcp_operator/adapters/driving/k8s/ownership.py:17-39 | the object ends with a single controller if and only if no other owner controlled it |
| Reconcile.ForeignControllerStays | python/vmcp_operator/adapters/driving/k8s/reconcile.py:50-54 | witness family: an attachment whose text names a foreign controller is applied with two |
| Reconcile.AttachedStayHome | python/vmcp_operator/adapters/driving/k8s/reconcile.py:87-101 | attachments are moved into the gateway's namespace; their gateway label is their own value or else the gateway's name, all other labels and the content are kept, and the owner is put last |
| Reconcile.AttachedCount | python/vmcp_operator/adapters/driving/k8s/reconcile.py:50-54 | attachments are applied up to exactly the first one without apiVersion, kind or name |
| Reconcile.Execute | python/vmcp_operator/adapters/driving/k8s/reconcile.py:46-54 | objects are owned in place and applied in order, then the well-formed attachments; a malformed one fails the pass after what precedes it |
| Reconcile.ApplyOwned | python/vmcp_operator/adapters/driving/k8s/reconcile.py:117-120 | the apply loop of an MCP pass |
| Reconcile.LastOneStays | python/vmcp_operator/adapters/driving/k8s/reconcile.py:46-54 | of objects with one identity the last applied stays, so an attachment replaces a rendered object of its name |
| Reconcile.OthersStay | python/vmcp_operator/adapters/driving/k8s/reconcile.py:46-54 | a pass changes no object of another identity |
| Reconcile.PassIsIdempotent | python/vmcp_operator/adapters/driving/k8s/reconcile.py:46-54 | applying the same pass again changes nothing |
| McpCodec.McpToCrd | python/vmcp_operator/adapters/driving/k8s/mapping.py:367-473 | fills the spec dict key by key; refuses a gateway in another namespace |
| McpPrinting.SpecPrinted | python/vmcp_operator/adapters/driving/k8s/mapping.py:367-473 | the keys and kinds of values of every printed resource: no default is left out; an empty list, an empty optional text and the peer's own namespace are; secret references are printed by name and key alone |
| McpCodec.ItemsOfDict | python/vmcp_operator/adapters/driving/k8s/mapping.py:344-364 | pairs survive a dict exactly when their keys are strictly sorted |
| McpCodec.DictOfItems | python/vmcp_operator/adapters/driving/k8s/mapping.py:344-364 | sorted items restore the dict |
| McpCodecRoundTrip.ParsePrinted | python/vmcp_operator/adapters/driving/k8s/mapping.py:100-173 | parsing a printed record gives its normal form and fails only for a nameless peer |
| McpCodecRoundTrip.RoundTripIffCanonical | python/vmcp_operator/adapters/driving/k8s/mapping.py:100-173 | `map_mcp` undoes `mcp_to_crd` if and only if the record is canonical, for all source kinds and nested lists |
| McpCodecRoundTrip.ParseIsIdempotentNormalisation | python/vmcp_operator/adapters/driving/k8s/mapping.py:100-173 | wherever parsing succeeds, print-and-parse is a normalisation: canonical, and stable when repeated |
| McpCodecRoundTrip.NormalizeIdentity | python/vmcp_operator/adapters/driving/k8s/mapping.py:344-473 | a record is its own normal form exactly when canonical |
| McpCodecRoundTrip.NormalizeIsCanonical | python/vmcp_operator/adapters/driving/k8s/mapping.py:344-473 | every normal form is canonical |
| McpCodecRoundTrip.MappedIsLocal | python/vmcp_operator/adapters/driving/k8s/mapping.py:100-173 | whatever JSON is accepted, the record lives in the given namespace beside its gateway |
| McpReading.MapMcpIff | python/vmcp_operator/adapters/driving/k8s/mapping.py:100-173 | `map_mcp` gives a record if and only if the spec describes it, every key and every default by its literal name and value, for any JSON with or without each key |
| McpReading.SourceIff | python/vmcp_operator/adapters/driving/k8s/mapping.py:101-152 | the same for the source, by its type |
| McpDefaults.SwitchesMayGo | python/vmcp_operator/adapters/driving/k8s/mapping.py:154-173 | removing `enabled` keeps the record if and only if it is true, removing `forwardIdentity` if and only if it is false |
| McpDefaults.OtherSource | python/vmcp_operator/adapters/driving/k8s/mapping.py:101-152 | another source object gives the same record if and only if it describes the same source |
| McpDefaults.EndpointDefaults | python/vmcp_operator/adapters/driving/k8s/mapping.py:117-128 | `mcpEndpoint` may be left out if and only if it is port `http` at `/mcp`, each of its keys if and only if it has that value |
| McpDefaults.ProtocolDefault | python/vmcp_operator/adapters/driving/k8s/mapping.py:109-116 | a port's protocol may be left out if and only if it is `TCP` |
| McpDefaults.ProxyDefaults | python/vmcp_operator/adapters/driving/k8s/mapping.py:134-147 | a proxy's path may be left out if and only if it is `/mcp-proxy`, its port if and only if it is 8080 |
| McpDefaults.BearerKeyDefault | python/vmcp_operator/adapters/driving/k8s/mapping.py:214-219 | a bearer reference's key may be left out if and only if it is `token`, its switch if and only if it is off |
| Catalog.InMemoryMcpCatalog.ListForGateway | python/vmcp_operator/adapters/driven/k8s/mcp_catalog.py:26-27 | a listing without repetition of exactly the gateway's records |
| Catalog.InMemoryMcpCatalog.Upsert | python/vmcp_operator/adapters/driven/k8s/mcp_catalog.py:32-34 | one step of the dict state machine |
| Catalog.InMemoryMcpCatalog.Get | python/vmcp_operator/adapters/driven/k8s/mcp_catalog.py:29-30 | one step of the dict state machine |
| Catalog.InMemoryMcpCatalog.Delete | python/vmcp_operator/adapters/driven/k8s/mcp_catalog.py:36-38 | one step of the dict state machine |
| Catalog.KubeMcpCatalog.ListForGateway | python/vmcp_operator/adapters/driven/k8s/mcp_catalog.py:61-72 | succeeds exactly when every object of the namespace parses or is skipped; then lists exactly the contributed rows |
| Catalog.KubeMcpCatalog.Get | python/vmcp_operator/adapters/driven/k8s/mcp_catalog.py:74-86 | one step of the resource store machine |
| Catalog.KubeMcpCatalog.Upsert | python/vmcp_operator/adapters/driven/k8s/mcp_catalog.py:88-108 | stores the printed record and answers with the record read back |
| Catalog.KubeMcpCatalog.Delete | python/vmcp_operator/adapters/driven/k8s/mcp_catalog.py:110-120 | one step of the resource store machine |
| Catalog.StepAgrees | python/vmcp_operator/adapters/driven/k8s/mcp_catalog.py:18-120 | one legal call gets one answer from both catalogs and keeps them in correspondence |
| Catalog.CatalogsAgree | python/vmcp_operator/adapters/driven/k8s/mcp_catalog.py:18-120 | every sequence of legal calls gets the same answers from both catalogs |
| Catalog.ListAgrees | python/vmcp_operator/adapters/driven/k8s/mcp_catalog.py:61-72 | listings of corresponding catalogs never fail and hold the same records |
| Catalog.ListMcpsAgrees | python/vmcp_operator/domain/usecases/manage_mcp.py:35-39 | sorted by name, both catalogs give one and the same list, whatever order their stores iterate in |
| Catalog.CatKeyInjective | python/vmcp_operator/adapters/driven/k8s/mcp_catalog.py:23-24 | keys separate records when namespaces hold no slash |
| Catalog.CatKeyNeedsSlashFree | python/vmcp_operator/adapters/driven/k8s/mcp_catalog.py:23-24 | witness: with a slash two records share a key |
| CatalogReading.RowsAre | python/vmcp_operator/adapters/driven/k8s/mcp_catalog.py:61-72 | the rows of a listing are exactly the records described by the objects of the namespace that name the gateway |
| CatalogReading.CleanIff | python/vmcp_operator/adapters/driven/k8s/mcp_catalog.py:61-72 | a listing fails if and only if some object of the namespace neither names another gateway nor describes a record of this one |
| CatalogReading.LookupIff | python/vmcp_operator/adapters/driven/k8s/mcp_catalog.py:74-86 | a lookup answers with the record that very object describes, and with nothing if and only if there is none |
| CatalogReading.DictLaws | python/vmcp_operator/adapters/driven/k8s/mcp_catalog.py:26-38 | the dict: an upsert or delete changes the lookups of its own key only; a listing holds exactly the gateway's records |
| ManageMcp.ApplyMcpFields | python/vmcp_operator/domain/usecases/manage_mcp.py:184-255 | the sparse update computes the specified record or fails |
| ManageMcp.AddMcp | python/vmcp_operator/domain/usecases/manage_mcp.py:60-69 | one add command of the state machine |
| ManageMcp.UpdateMcp | python/vmcp_operator/domain/usecases/manage_mcp.py:76-92 | one update command of the state machine |
| ManageMcp.RemoveMcp | python/vmcp_operator/domain/usecases/manage_mcp.py:99-107 | one remove command of the state machine |
| ManageMcp.ListMcps | python/vmcp_operator/domain/usecases/manage_mcp.py:35-39 | exactly the gateway's records, in name order, for a known gateway |
| ManageMcp.ResolveKeepsValid | python/vmcp_operator/domain/usecases/manage_mcp.py:281-299 | after validation and resolution the record is valid exactly when it did not inherit a blank path |
| ManageMcp.AddStoresInvalidIff | python/vmcp_operator/domain/usecases/manage_mcp.py:60-69 | a stored record fails validation if and only if it inherited a blank peer path |
| ManageMcp.BlankPathWitness | python/vmcp_operator/domain/usecases/manage_mcp.py:281-299 | witness: such records exist |
| ManageMcp.UpdateKeepsIdentity | python/vmcp_operator/domain/usecases/manage_mcp.py:184-255 | an update never changes name, gateway, source kind, peer, port or the nested lists |
| ManageMcp.CommandKeepsSound | python/vmcp_operator/domain/usecases/manage_mcp.py:60-107 | one command keeps every record under its key, beside its gateway and valid; touches one gateway only; a failure changes nothing |
| ManageMcp.UpdateChangesOneRecord | python/vmcp_operator/domain/usecases/manage_mcp.py:76-92 | a successful update replaces one record and keeps its identity |
| ManageMcp.RemoveUndoesAdd | python/vmcp_operator/domain/usecases/manage_mcp.py:60-107 | removing what was just added restores the catalog |
| ManageMcp.UpdateIsIdempotent | python/vmcp_operator/domain/usecases/manage_mcp.py:76-92 | the same update twice is the update once |
| ManageMcp.RunsStaySound | python/vmcp_operator/domain/usecases/manage_mcp.py:55-107 | over any command sequence, with non-blank peer paths, the catalog stays sound |
| ManageMcp.OtherGatewaysUntouched | python/vmcp_operator/domain/usecases/manage_mcp.py:55-107 | commands for other gateways never touch a gateway's record, over whole runs |
| UpdateEffects.ApplyFieldsEffect | python/vmcp_operator/domain/usecases/manage_mcp.py:184-255 | a sparse update succeeds if and only if the fields suit the record, and then each given field has its new value and each other one its old value |
| UpdateEffects.UpdateEffect | python/vmcp_operator/domain/usecases/manage_mcp.py:76-92 | the update command succeeds if and only if the record is stored for that gateway, the fields suit it and its peer serves; it stores the record with exactly the given fields changed, up to an inherited path |
| UpdateEffects.AddEffect | python/vmcp_operator/domain/usecases/manage_mcp.py:60-69 | the add command succeeds if and only if the record is acceptable, its gateway known, its peer serving and its key free; it stores the record with its inherited path |
| UpdateEffects.RemoveEffect | python/vmcp_operator/domain/usecases/manage_mcp.py:99-107 | the remove command succeeds if and only if the record is stored for that gateway, and takes exactly it away |
| UpdateEffects.ResolveEffect | python/vmcp_operator/domain/usecases/manage_mcp.py:281-299 | a proxy takes its peer's path if and only if the peer names one and the record left it at the default |
| ControlPlane.AddMcp | python/vmcp_operator/domain/usecases/manage_mcp.py:60-69 | one add command over the custom resources |
| ControlPlane.UpdateMcp | python/vmcp_operator/domain/usecases/manage_mcp.py:76-92 | one update command over the custom resources |
| ControlPlane.RemoveMcp | python/vmcp_operator/domain/usecases/manage_mcp.py:99-107 | one remove command over the custom resources |
| ControlPlane.AddBodyCanonicalIff | python/vmcp_operator/domain/usecases/manage_mcp.py:110-181 | what an add body gives survives the custom-resource codec if and only if it is not a proxy whose peer is written without its namespace or name part |
| AddBodyReading.FromAddBodyIff | python/vmcp_operator/domain/usecases/manage_mcp.py:110-181 | an add body gives a record if and only if it describes it, every key, place and default written out |
| AddBodyReading.BareImage | python/vmcp_operator/domain/usecases/manage_mcp.py:138-150 | a body with a type and an image and nothing else gives an enabled container without ports, reached at port `http` under `/mcp` |
| ControlPlane.CommandAgrees | python/vmcp_operator/domain/usecases/manage_mcp.py:55-107 | one command is answered alike over the dict and over the custom resources, and they stay in correspondence |
| ControlPlane.AddAgreesIff | python/vmcp_operator/domain/usecases/manage_mcp.py:60-69 | for any stored add the two answers are equal if and only if the record is canonical |
| ControlPlane.ControlPlanesAgree | python/vmcp_operator/domain/usecases/manage_mcp.py:55-107 | every sequence of updates, removes and adds of canonical records or of records from add bodies gets the same answers over both catalogs, however the gateways change in between |
| ControlPlane.ListsAgreeAfterRuns | python/vmcp_operator/domain/usecases/manage_mcp.py:35-39 | after any such run every gateway's `ListMcps` is the same list over both |
| Routes.MappedRoute | python/vmcp_operator/adapters/driving/k8s/mapping.py:255-299 | a mapped route has host, parent and rooted path; a public one never injects, an extra one only when asked |
| Routes.ParentIsWhole | python/vmcp_operator/adapters/driving/k8s/mapping.py:302-323 | the parent is wholly own or wholly inherited; a namespace or section without a name is dropped |
| Routes.ExtraRoutes | python/vmcp_operator/adapters/driving/k8s/mapping.py:226-252 | the first failing item decides, names are checked against those before |
| Routes.ExtrasAreDistinct | python/vmcp_operator/adapters/driving/k8s/mapping.py:226-252 | accepted extras: one per item, in order, labels, none reserved or repeated |
| Routes.RenderedNamesDiffer | python/vmcp_operator/domain/usecases/render_gateway_manifests.py:204-240 | no two HTTPRoutes rendered for a gateway share a name |
| Routes.NamesMeetIff | python/vmcp_operator/domain/usecases/render_gateway_manifests.py:268-268 | HTTPRoutes of two gateways share a name exactly when one gateway's name continues the other's by the front of its suffix |
| Routes.TwoGatewaysMeet | python/vmcp_operator/domain/usecases/render_gateway_manifests.py:268-268 | witness: `a` with extra route `b-public` takes the name of `a-b`'s public route |
| RoutesMeaning.RoutesIff | python/vmcp_operator/adapters/driving/k8s/mapping.py:40-50 | the routes of a gateway are mapped if and only if the resource describes them, every default and inherited part by value |
| RoutesMeaning.RenderedAre | python/vmcp_operator/domain/usecases/render_gateway_manifests.py:204-240 | a suffix is rendered if and only if it is that of a route whose own `manage` is not off |
| TextMeaning.OrderIs | python/vmcp_operator/domain/usecases/reconcile_artifacts.py:35-35 | names are ordered by code point at the first difference, a front before what it begins |
| TextMeaning.StripIff | python/vmcp_operator/adapters/driving/k8s/mapping.py:262-262 | stripping removes the white space at both ends and nothing else |
| Naming.PascalCase | crates/vmcp-op-core/src/naming.rs:15-34 | the character loop computes the PascalCase identifier |
| Naming.CamelCase | crates/vmcp-op-core/src/naming.rs:37-51 | the PascalCase identifier with its first letter lowered |
| Naming.CamelEqualPascalEqual | crates/vmcp-op-core/src/naming.rs:37-51 | equal camelCase identifiers have equal PascalCase ones |
| Naming.RejectGraphqlNameCollisions | crates/vmcp-op-core/src/naming.rs:54-77 | accepts exactly non-empty pairwise different identifiers; the camelCase check never fires |
| Naming.EnvEqualPascalEqual | python/vmcp_operator/domain/usecases/reconcile_artifacts.py:56-58 | lower-case names with one variable name have one PascalCase identifier |
| Naming.UpperCaseSharesEnv | python/vmcp_operator/domain/usecases/reconcile_artifacts.py:56-58 | witness: with upper case, which Kubernetes does not store, two accepted names share a variable |
| BundleMeaning.IdentifierIs | crates/vmcp-op-core/src/naming.rs:15-51 | the identifier is the words between dashes, underscores and white space, each with a capital in front |
| Artifacts.RenderSidecar | crates/vmcp-op-core/src/sidecar.rs:59-119 | succeeds exactly for non-blank, unrepeated tools; the file is content-addressed |
| Artifacts.ToUpstreamSpec | crates/vmcp-op-core/src/registry.rs:35-77 | succeeds exactly for non-blank name and URL and a variable token |
| Artifacts.RenderRegistry | crates/vmcp-op-core/src/registry.rs:80-125 | succeeds exactly within the size limit, with distinct names and identifiers, for convertible upstreams |
| Artifacts.RenderSkill | crates/vmcp-op-core/src/skills.rs:53-132 | succeeds exactly for a valid name, non-blank texts, and unrepeated arguments without defaults |
| Artifacts.RejectDuplicateSkillNames | crates/vmcp-op-core/src/skills.rs:135-146 | accepts exactly distinct names |
| Bundle.CollectSidecars | crates/vmcp-op-core/src/bundle.rs:46-64 | the sidecar loop: files and rewritten references |
| Bundle.Measure | crates/vmcp-op-core/src/bundle.rs:92-106 | byte total and digest material in key order |
| Bundle.RenderArtifactBundle | crates/vmcp-op-core/src/bundle.rs:36-114 | succeeds exactly when every part does and the budget holds; the files, digests and total |
| BundleFacts.SidecarPathInjective | crates/vmcp-op-core/src/sidecar.rs:112-118 | the server name can be read back from a sidecar path |
| BundleFacts.PathsDistinct | crates/vmcp-op-core/src/bundle.rs:43-90 | no insert overwrites another |
| BundleFacts.BundleIsComplete | crates/vmcp-op-core/src/bundle.rs:43-97 | 1 + upstreams with overrides + skills files; total bytes are their sum, within budget |
| BundleFacts.RegistryReferencesResolve | crates/vmcp-op-core/src/bundle.rs:46-66 | every sidecar path in the registry is a file of the bundle, from that upstream's own overrides |
| BundleFacts.BundleOrderFree | crates/vmcp-op-core/src/bundle.rs:40-106 | success, files, size and digests are unchanged by permuting upstreams or skills |
| BundleFacts.OverridesOrderDoesNotMatter | crates/vmcp-op-core/src/sidecar.rs:70-93 | and by permuting the tool overrides of an upstream |
| BundleFacts.MaterialInjective | crates/vmcp-op-core/src/bundle.rs:99-106 | equal material of NUL-free file lists means equal paths and data |
| BundleFacts.DigestMaterialDeterminesFiles | crates/vmcp-op-core/src/bundle.rs:99-110 | equal material means equal file maps |
| BundleFacts.BundlesWellFiled | crates/vmcp-op-core/src/bundle.rs:43-90 | the files a bundle emits are filed under their own path with their own digest |
| BundleMeaning.RendersIff | crates/vmcp-op-core/src/bundle.rs:36-114 | a bundle is rendered if and only if the input is acceptable and fits a mebibyte in UTF-8; it holds exactly the override, registry and skill files that belong to it, each under its path, with the digests of the registry's text and of all paths and texts in path order |
| BundleMeaning.AcceptableIff | crates/vmcp-op-core/src/registry.rs:35-125 | exactly which entries and skills the renderers accept |
| BundleMeaning.FilesBelong | crates/vmcp-op-core/src/bundle.rs:43-90 | the files inserted are exactly those that belong: override files under the server's name and the front of their digest, the registry that names them, one file per skill |
| GatewayArtifacts.CollectEntries | python/vmcp_operator/domain/usecases/reconcile_artifacts.py:28-50 | one entry per enabled MCP of the gateway, in name order |
| GatewayArtifacts.GatewayEnv | python/vmcp_operator/domain/usecases/render_gateway_manifests.py:418-468 | fixed variables, then the bearer variables of the served MCPs in name order |
| GatewayArtifacts.FilterSorted | python/vmcp_operator/domain/usecases/render_gateway_manifests.py:448-468 | sorting then filtering is filtering then sorting |
| GatewayArtifacts.RegistryMatchesEnv | python/vmcp_operator/domain/usecases/render_gateway_manifests.py:448-468 | the registry's `${...}` references are, in order, exactly the Deployment's bearer variables |
| GatewayArtifacts.RenderedEnvIsDistinct | python/vmcp_operator/domain/usecases/reconcile_artifacts.py:33-81 | when the registry renders for lower-case names, no two MCPs share a variable |
| GatewayArtifacts.BearerNamesAreNotFixed | python/vmcp_operator/domain/usecases/render_gateway_manifests.py:418-456 | a bearer variable never shadows a fixed one |
| GatewayMeaning.UrlIff | python/vmcp_operator/domain/usecases/reconcile_artifacts.py:53-102 | an MCP is reached at a URL if and only if it is the remote one given, or the Service of its own gateway at the first port of the endpoint's name, or the Service of another gateway by its name and namespace |
| GatewayMeaning.EntryIff | python/vmcp_operator/domain/usecases/reconcile_artifacts.py:28-102 | an MCP becomes an entry if and only if the entry describes it: name, URL, bearer variable exactly for a named secret, every override |
| GatewayMeaning.EntriesAre | python/vmcp_operator/domain/usecases/reconcile_artifacts.py:28-50 | the entries of a gateway describe its enabled MCPs one by one in name order |
| GatewayMeaning.ServedAre | python/vmcp_operator/domain/usecases/reconcile_artifacts.py:33-35 | the served MCPs are the enabled ones of this gateway, each as often as given, in name order |
| GatewayMeaning.TiesKeepOrder | python/vmcp_operator/domain/usecases/reconcile_artifacts.py:35-35 | sorting by name keeps MCPs of one name in the order they were given in |
| GatewayMeaning.EnvironmentIs | python/vmcp_operator/domain/usecases/render_gateway_manifests.py:418-468 | the whole environment: four fixed variables by name and value, the forward-auth secret if there is one, one variable per served MCP with a secret, in name order and no other |
| ConfigMapKeys.ExpandUndoesFlattenIff | python/vmcp_operator/domain/usecases/render_gateway_manifests.py:134-143 | expanding undoes flattening if and only if no underscore is followed by an underscore or a slash |
| ConfigMapKeys.FlattenInjective | python/vmcp_operator/domain/usecases/render_gateway_manifests.py:480-484 | such paths never share a key |
| ConfigMapKeys.FlattenCollision | python/vmcp_operator/domain/usecases/render_gateway_manifests.py:480-484 | witness: other paths do |
| ConfigMapKeys.KeyIs | python/vmcp_operator/domain/usecases/render_gateway_manifests.py:480-484 | a path's key is its segments joined by two underscores |
| ConfigMapKeys.RefusedIff | python/vmcp_operator/domain/usecases/render_gateway_manifests.py:480-484 | a path is refused if and only if it is empty or has white space at an end |
| ConfigMapKeys.BundlePathsAreFlattenable | crates/vmcp-op-core/src/skills.rs:53-60 | every path of a bundle with DNS-style server names is such a path and not the config file's |
| ConfigMapKeys.ConfigMapData | python/vmcp_operator/domain/usecases/render_gateway_manifests.py:61-65 | every key is the config's or some file's; for bundle paths each file sits under its own key beside the config |
| ConfigMapKeys.ExpandAll | python/vmcp_operator/domain/usecases/render_gateway_manifests.py:134-143 | the script's loop, in any order: every key reaches its expanded path and every path holds the text of a key that expands to it |
| ConfigMapKeys.ExpandedDirectory | python/vmcp_operator/domain/usecases/render_gateway_manifests.py:134-143 | the directory the script builds from a bundle's ConfigMap is exactly the bundle's path-to-data map and the config |
| HeaderFilters.DedupeHeaderNames | python/vmcp_operator/domain/usecases/render_gateway_manifests.py:355-364 | first spelling of each name, case ignored |
| HeaderFilters.DedupeNamedHeaders | python/vmcp_operator/domain/usecases/render_gateway_manifests.py:367-376 | last value of each name at its first position |
| HeaderFilters.IdentityRemoveHeaders | python/vmcp_operator/domain/usecases/render_gateway_manifests.py:283-298 | built-in and configured names, without a second spelling |
| HeaderFilters.StripHeadersForRoute | python/vmcp_operator/domain/usecases/render_gateway_manifests.py:317-334 | the strip list of a route |
| HeaderFilters.MergeRequestHeaderModifier | python/vmcp_operator/domain/usecases/render_gateway_manifests.py:337-352 | one modifier, or none when empty |
| HeaderFilters.RouteFilters | python/vmcp_operator/domain/usecases/render_gateway_manifests.py:379-415 | the filter list of a rule |
| HeaderMeaning.DedupedSetsActAlike | python/vmcp_operator/domain/usecases/render_gateway_manifests.py:367-376 | on every header map the deduplicated `set` acts like applying all sets in order |
| HeaderMeaning.DedupedRemovesActAlike | python/vmcp_operator/domain/usecases/render_gateway_manifests.py:355-364 | the deduplicated `remove` removes what the full list does |
| HeaderMeaning.AtMostOneModifier | python/vmcp_operator/domain/usecases/render_gateway_manifests.py:379-415 | a rule has at most one request header modifier, in front |
| HeaderMeaning.InjectingRoute | python/vmcp_operator/domain/usecases/render_gateway_manifests.py:301-415 | the hop header equals the secret, headers that forward-auth writes stay as it wrote them, everything else no client may send is gone; all by literal names |
| HeaderMeaning.InjectingWithoutSecret | python/vmcp_operator/domain/usecases/render_gateway_manifests.py:301-415 | without a secret a forged hop header is gone too, and what forward-auth writes stays |
| HeaderMeaning.PlainRoute | python/vmcp_operator/domain/usecases/render_gateway_manifests.py:317-415 | a stripping route that does not inject leaves none of the headers that no client may send |
| HeaderMeaning.StripNamesAre | python/vmcp_operator/domain/usecases/render_gateway_manifests.py:283-298 | the strip names are the built-in and the three configured ones, case ignored |
| HeaderMeaning.RouteEffect | python/vmcp_operator/domain/usecases/render_gateway_manifests.py:301-415 | for every header map, header and order of the three parts: the value after the route, in terms of the settings and literal header names only |
| HeaderMeaning.ExtrasEffect | python/vmcp_operator/domain/usecases/render_gateway_manifests.py:337-415 | on every other header the extra modifiers act as written |
| EarlyStrip.ListenerPolicyName | python/vmcp_operator/domain/usecases/render_gateway_manifests.py:593-608 | the cleaned, shortened policy name |
| EarlyStrip.PolicyNamesCollide | python/vmcp_operator/domain/usecases/render_gateway_manifests.py:593-608 | a parent with a section and one spelled with a dash share a policy name |
| EarlyStrip.PlanEarlyIdentityStrip | python/vmcp_operator/domain/usecases/render_gateway_manifests.py:496-591 | the plan of objects, phase and skipped parents; a policy targets a name and a section, never a namespace |
| EarlyStrip.CoveredIff | python/vmcp_operator/domain/usecases/render_gateway_manifests.py:496-608 | a local parent is covered if and only if every later parent with its policy name and another target is itself followed by one with this parent's target |
| EarlyStrip.CoveredUnlessDisplaced | python/vmcp_operator/domain/usecases/render_gateway_manifests.py:496-608 | in particular when no later parent takes its policy name for another target |
| EarlyStrip.EveryRequestAccounted | python/vmcp_operator/domain/usecases/render_gateway_manifests.py:496-555 | a policy for a target is planned exactly for the stripping local parents with that target, a parent is reported as skipped exactly when it lives elsewhere, and nothing else is planned or reported |
| EarlyStrip.CollidingParentsLoseOne | python/vmcp_operator/domain/usecases/render_gateway_manifests.py:557-608 | witness family: two parents of which the plan covers the second only |
| EarlyStrip.OwnNamespaceSpelledOut | python/vmcp_operator/domain/usecases/render_gateway_manifests.py:557-608 | a parent written with and without its own namespace gives one policy twice and is covered |
| EarlyStrip.SpelledAgainIsCovered | python/vmcp_operator/domain/usecases/render_gateway_manifests.py:557-608 | witness family: a parent that lost its policy is covered again when a later route spells it with its own namespace |
| EarlyStripMeaning.PolicyNameIs | python/vmcp_operator/domain/usecases/render_gateway_manifests.py:593-608 | a policy name is the runs of letters and digits of gateway, `identity-strip`, parent and section, in small letters, joined by single dashes, cut after 253 characters |
| EarlyStripMeaning.PolicyNameIsLegalIff | python/vmcp_operator/domain/usecases/render_gateway_manifests.py:593-608 | Kubernetes takes the name if and only if the full text fits or has no dash where the cut ends |
| EarlyStripMeaning.PolicyNameEndsInDash | python/vmcp_operator/domain/usecases/render_gateway_manifests.py:593-608 | witness family: names that it refuses |
| EarlyStripMeaning.PlanIs | python/vmcp_operator/domain/usecases/render_gateway_manifests.py:496-591 | one policy per local parent that asks, in the order of asking, aimed at that parent; the others that ask are reported in that order; nothing when policies are not managed |
| NlText.WordsOfJoin | python/vmcp_operator/domain/usecases/nl_crud.py:84-84 | splitting joined words gives the words back |
| NlText.JoinOfWords | python/vmcp_operator/domain/usecases/nl_crud.py:84-84 | joining split words restores text with single blanks |
| NlText.JoinMentions | python/vmcp_operator/domain/usecases/nl_crud.py:100-101 | a word occurs in the joined text exactly when it occurs inside one token |
| NlLetters.WordsIff | python/vmcp_operator/domain/usecases/nl_crud.py:84-84 | the words of a text are its longest runs without white space, in order |
| NlFields.ParseFields | python/vmcp_operator/domain/usecases/nl_crud.py:271-297 | the scanning loop collects all matches left to right, the last per key winning |
| NlFields.FieldsRoundTrip | python/vmcp_operator/domain/usecases/nl_crud.py:68-72 | printed pairs parse back to the same fields, in any order of printing |
| NlFields.BareValueSurvivesIff | python/vmcp_operator/domain/usecases/nl_crud.py:68-72 | an unquoted value comes back whole if and only if it does not start with a boolean word it is not |
| NlFields.TruestIsCut | python/vmcp_operator/domain/usecases/nl_crud.py:68-72 | witness: `url=truest.com` is read as `true` |
| NlFieldGrammar.PairIff | python/vmcp_operator/domain/usecases/nl_crud.py:68-72 | a pair is matched if and only if one stands there: a key in any case, an equals sign with white space around it, and the first kind of value that fits |
| NlFieldGrammar.StandsIff | python/vmcp_operator/domain/usecases/nl_crud.py:288-306 | what a matched value stands for, quotes removed, the words for yes and no written out |
| NlFieldGrammar.FieldsIff | python/vmcp_operator/domain/usecases/nl_crud.py:271-306 | the scanner gives fields if and only if the text says them: its pairs from left to right, all with a meaning, the last of each key |
| NlQuotes.FieldsSaidAgainIff | python/vmcp_operator/domain/usecases/nl_crud.py:68-72 | printed pairs, longer keys first, are read back as the same fields if and only if every text fits some quote |
| NlCrud.RefOf | python/vmcp_operator/domain/usecases/nl_crud.py:262-268 | a matched gateway reference is never refused |
| NlCrud.AtMostOnePattern | python/vmcp_operator/domain/usecases/nl_crud.py:26-66 | no text matches two of the six patterns |
| NlCrud.OrderDoesNotMatter | python/vmcp_operator/domain/usecases/nl_crud.py:83-168 | any order of trying the patterns gives the same outcome |
| NlCrud.WhiteSpaceIsIgnored | python/vmcp_operator/domain/usecases/nl_crud.py:84-86 | only the words of an utterance count |
| NlCrud.FlagStoredIffMentioned | python/vmcp_operator/domain/usecases/nl_crud.py:98-121 | an add stores `forwardIdentity` exactly when both words occur anywhere in the text |
| NlCrud.NameTurnsFlagOn | python/vmcp_operator/domain/usecases/nl_crud.py:100-101 | witness family: an MCP named `forward-identity` switches the flag on |
| NlCrud.IntentRoundTrip | python/vmcp_operator/domain/usecases/nl_crud.py:83-168 | printing any well-formed intent and parsing it gives the same intent |
| NlCrud.ParsedIsSaidAgain | python/vmcp_operator/domain/usecases/nl_crud.py:83-168 | what any utterance was understood as is understood again from its canonical wording, if and only if it is not an update with a text that holds both kinds of quotes |
| NlCrud.BothQuotesAreLost | python/vmcp_operator/domain/usecases/nl_crud.py:68-72 | witness family: bare URLs with both kinds of quotes are understood and not understood again |
| NlGrammar.ParseIff | python/vmcp_operator/domain/usecases/nl_crud.py:26-168 | an utterance is understood as an intent if and only if its words mean it: each verb, preposition, source word, flag spelling and value in either language and any case, written out |
| NlGrammar.RefusedWith | python/vmcp_operator/domain/usecases/nl_crud.py:83-168 | an utterance is refused as empty if and only if it has no words, and as an update without fields if and only if it begins as an update whose text says no fields |
| RateLimiter.RateLimiter.Allow | python/vmcp_operator/adapters/driving/dashboard/app.py:46-54 | admits exactly when fewer than `limit` admissions are recent; the history grows by this call |
| RateLimiter.DropOld | python/vmcp_operator/adapters/driving/dashboard/app.py:49-50 | popping from the front leaves the recent admissions |
| RateLimiter.WindowBound | python/vmcp_operator/adapters/driving/dashboard/app.py:46-54 | `limit` + 1 consecutive admissions of a key span more than the window |
| RateLimiter.NeverOverfull | python/vmcp_operator/adapters/driving/dashboard/app.py:46-54 | at no moment do more than `limit` admissions of a key lie within the last window |
| RateLimiter.RefusedExactlyWhenFull | python/vmcp_operator/adapters/driving/dashboard/app.py:51-54 | for calls in time order: refused exactly when exactly `limit` admissions are recent; other keys change nothing |
| RateLimiter.RecentIsSuffix | python/vmcp_operator/adapters/driving/dashboard/app.py:49-50 | the recent admissions are a suffix |
| Connection.EveryEffectiveEventAdvances | python/vmcp_operator/domain/usecases/connection_strategy.py:34-88 | events in any order advance the phase by exactly one rank per effective event |
| Connection.RegistryDuringRollout | python/vmcp_operator/domain/usecases/connection_strategy.py:34-98 | rolled names are out until Add; from then on the desired list is whole and in order |
| Connection.RemovedIsAddedBack | python/vmcp_operator/domain/usecases/connection_strategy.py:57-88 | every removed name is added back, with a reload |
| Connection.FilterMeans | python/vmcp_operator/domain/usecases/connection_strategy.py:91-98 | the filter keeps exactly the names not removed |
| Connection.RolloutIs | python/vmcp_operator/domain/usecases/connection_strategy.py:34-88 | the whole plan after any events: it depends on which of the three steps happened one after the other, and on nothing else |
| SkillsSync.RefusedIff | python/vmcp_operator/domain/usecases/skills_sync.py:33-38 | a plan is refused exactly for a repeated name or an unmanaged file |
| SkillsSync.PlanPartitions | python/vmcp_operator/domain/usecases/skills_sync.py:40-53 | written, deleted and kept names are disjoint, sorted, and cover everything present or desired |
| SkillsSync.SyncResult | python/vmcp_operator/domain/usecases/skills_sync.py:26-53 | after a sync desired names hold their content, abandoned managed names are gone, all else is unchanged |
| SkillsSync.SecondSyncIsNoOp | python/vmcp_operator/domain/usecases/skills_sync.py:26-53 | syncing again changes nothing |
| SkillsSync.UnmanagedNamesAreTheAdmins | python/vmcp_operator/domain/usecases/skills_sync.py:24-53 | over any run with admin edits a name no profile managed is what the admin made of it |
| ImagePolicy.ImageAllowed | crates/vmcp-op-core/src/image_policy.rs:69-90 | which error, or allowed exactly when some prefix covers the repository |
| ImagePolicy.AssembleUndoesParse | crates/vmcp-op-core/src/image_policy.rs:14-66 | repository, tag and digest put back together are the trimmed input |
| ImagePolicy.ParseUndoesAssemble | crates/vmcp-op-core/src/image_policy.rs:14-66 | a tagged reference without a dot in its last segment is parsed into the parts it was put together from, digest included |
| ImagePolicy.AllowedAtBoundary | crates/vmcp-op-core/src/image_policy.rs:78-86 | an allowed image is the prefix followed by nothing, a slash, a colon or an at sign |
| ImagePolicy.PrefixesNest | crates/vmcp-op-core/src/image_policy.rs:78-86 | a shorter prefix admits what a longer one under it admits |
| ImagePolicy.TagIff | crates/vmcp-op-core/src/image_policy.rs:39-53 | exactly when a reference without digest has a tag |
| ImagePolicy.DottedNameKeepsTag | crates/vmcp-op-core/src/image_policy.rs:37-53 | a dotted last segment keeps its tag inside the repository |
| ImagePolicy.DottedExample | crates/vmcp-op-core/src/image_policy.rs:37-53 | witness: `r/a.b:1` has no tag |
| ImageMeaning.ParseIff | crates/vmcp-op-core/src/image_policy.rs:14-66 | a reference is parsed into parts if and only if it is read so: trimmed, without white space, digest behind the first at sign, tag behind the last colon unless a slash follows or a dotted segment precedes, a path in the repository |
| ImageMeaning.AllowedIff | crates/vmcp-op-core/src/image_policy.rs:69-90 | an image passes if and only if it is understood and some prefix, without its closing slashes and not empty then, is its repository or a path above it |
| ImageMeaning.RefusedWith | crates/vmcp-op-core/src/image_policy.rs:14-53 | which error a reference is refused with |

Where code and comments disagree the model follows the code. `image_policy.rs:37-38` says the tag is the final
segment after the last slash; a dot in the segment before the colon switches tag parsing off
(`ImagePolicy.DottedNameKeepsTag`). `naming.rs:54-77` checks camelCase collisions that cannot occur
(`Naming.RejectGraphqlNameCollisions`).

## Left out

- Manifest bodies (PVC, Service, Deployment), `vmcp.toml` text, status patches, Helm charts, dashboard pages, Basic auth and PyO3 glue: long but shallow.
- Kopf, kr8s and HTTP calls. The API server is an abstract store; an upsert replaces the whole spec, field managers and the conflict-retry loop of `ssa.py` are not modelled.
- SHA-256, JSON and YAML text, `MAX_UPSTREAMS` and the test that registry text names an HTTP transport are parameters of the rendering (`Artifacts.Kernel`); theorems hold for every choice with 64-character digests.
- Error message texts: only kinds of errors are kept.
- JSON values whose type contradicts the resource schema, which Python would coerce with `str()` or `int()`: such input gives the error `Unmodelled`. Floats and `int("…")` are not modelled.
- ManageMcp.ApplyMcpFields: numbers, lists and objects given as a URL, image or path are refused, where Python would store their `str()`; the resource schema declares these fields as strings.
- Catalog.KubeMcpCatalog.Upsert: replaces the whole spec, where server-side apply would merge fields owned by other managers.
- `immutable.py`, `route_status.py`, `crd_compat.py`, `checksum_rollout.py`, `issue_use_token.py` and `list_environments.py`: they would add easy members only.
- Route annotations and extra filters are not fields of `Routes.Route`; extra filters are covered by `HeaderFilters`.
- Protocol: a resource identity stands for one incarnation, so a deleted name is not reused; a handler's event is the resource at the moment of the call, and time spent waiting for the lock accounts for staleness. Kopf's per-object serialisation is not assumed. Child objects are identities: the PVC, the ConfigMap, the Service, the Deployment, and the spec's routes, policies and attachments in their order; of a manifest only its spec, its listing and whether its text depends on the listing are kept. The pending set and the gateway annotation touch only cause further calls, which the model allows at any time. `OperatorRuntime.for_cluster` never configures an unregister callback; without one the answer counts as true.
- Protocol: the event loop's locks are first come, first served and do not suspend a handler that finds them free; the model lets any waiting handler take a free lock at any time, so its theorems cover more orders than the program has. The runs in `ProtocolLimits` keep the program's order. Objects are never deleted by a pass.
- ProtocolDeletion.EffectivePassesCount: speaks of families whose objects carry the operator's finalizer alone; an object with a foreign finalizer also waits for that finalizer's owner.
- Iteration orders of dicts and lists from the API server are left open; the theorems hold for each.
- ManageMcp.RunsStaySound: assumes peer proxy paths that are empty or not blank, the exact condition of `ManageMcp.AddStoresInvalidIff`.
- Deduplicating `add` headers keeps one entry per name by design, so no equality with applying all of them is claimed.
- Case mapping and white space are ASCII, in the command parser also Russian letters; other letters are not word characters there. The command patterns are matched on the words of the normalised text, not as regular expressions on characters; dry-run and structured intents are passed on unchanged and not modelled.
- The shell glob of the expand script skips names that start with a dot; bundle paths have none.
- SkillsSync: the source only plans. Applying a plan (delete, then write) and remembering the managed names is this model's reading of the plan.
- The rate limiter's clock is a parameter and time is real-valued.
- The message string of `EarlyStripPlan` and `sed`, `dirname` and `cp` beyond their effect on names.
