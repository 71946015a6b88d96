# A verified model of the Data Prepper operator

The operator turns `DataPrepperPipeline` objects into running Data Prepper deployments and, for a
`DataPrepperSourceDiscovery`, keeps one pipeline per discovered Kafka topic or S3 prefix. This project models its
decision logic in Dafny and proves what that logic guarantees, for every input, every iteration order of a Go map and
every run. `dafny verify dfyconfig.toml` checks all of it.

| file | what it models |
|---|---|
| `Api.dfy`, `Cells.dfy`, `Lists.dfy` | the resource types as values; specs on the heap, for the members written through pointers; list lemmas |
| `Graph.dfy` | validation of the pipeline graph by three-colour depth-first search |
| `Merge.dfy` | merging namespace defaults |
| `Config.dfy`, `Generate.dfy`, `ReadBack.dfy` | the generated configuration, the code that builds it, and reading it back |
| `Placeholders.dfy`, `Credentials.dfy` | the credentials the configuration refers to, the environment variables and secrets |
| `Admission.dfy` | the validating webhook, and what an admitted spec is worth later |
| `Scaling.dfy` | replicas and Kafka consumer threads, including the floating-point ceiling |
| `Objects.dfy`, `Reconcile.dfy` | one pass of the pipeline controller as a list of writes to a store of objects |
| `Names.dfy`, `Prefixes.dfy`, `Render.dfy` | names of child pipelines, S3 listing, rendering of child specs with shared overrides |
| `Discovery.dfy`, `DiscoveryCycle.dfy` | one discovery cycle: rate limit, staged rollout behind a health gate, cleanup |
| `DiscoveryRuns.dfy` | whole runs of cycles: convergence, rollout bound, blast radius |
| `Ownership.dfy` | the discovery object, its children, users and the garbage collector as one interleaved state machine |
| `Backoff.dfy` | failure counting and backoff |

Conventions. A nil pointer is `None`. API calls of the controllers may fail at any point, and the contracts say what
holds then; `reliable` switches failures off for progress claims. Iteration over a Go map is an arbitrary choice.
`CreateOrUpdate` is one atomic step, and so is each read-then-delete. The validating webhook is a parameter of the
discovery cycle. Template rendering, pattern matching, YAML, JSON and hashing are function parameters.

## What fails, and exactly when it holds

- Only sink references enter the cycle search. A cycle made of source references is accepted
  (`Graph.SourceCycleAccepted`); a graph the validator accepts is free of cycles of either kind exactly when the
  validator also accepts it with the source references written as sinks (`Graph.LinkAcyclicIffMirrorValid`).
- Under the Orphan policy a child can be lost in three ways: when the discovery object is deleted in the foreground
  (`Ownership.ForegroundLosesChild`); when the child's label was taken off, because the children to release are found by
  label (`Ownership.UnlabelledLosesChild`); and when the discovery object's finalizer is removed by hand, because only the
  finalizer delays the deletion until the child is released (`Ownership.DroppedLosesChild`). `Ownership.ChildrenSurvive`
  shows that no other event of the model loses a child; `Ownership.ListingDecides` and `Ownership.DropDecides` say exactly
  when these steps can; `Ownership.Collectability` says when a child may be collected.
- The webhook compares the two scaling bounds only when both are set, so a lower bound above the default upper bound of
  10 is admitted (`ScalingMath.AdmittedBounds`, `ScalingMath.CrossedBoundsAdmitted`).
- Pipelines `x` and `x-headless` share a Service, and a pass of the first deletes it without asking whose it is
  (`Reconcile.HeadlessOrderMatters`). This is the only way two pipelines can collide (`Reconcile.OwnedDisjoint`), and they
  do exactly when not both of them delete it (`Reconcile.CommuteIff`).
- Pod labels and annotations of the user are applied last, so they can hide the configuration hash and can contradict
  the Deployment's selector (`Reconcile.HashReachesPods`, `Reconcile.SelectorHolds`).
- Drift of a child is judged by the annotated hash alone. A child whose spec was edited by hand under the right hash
  counts as settled (`DiscoveryRuns.EditedChildStays`), and no run repairs it; every other child of a settled store has
  its desired spec (`DiscoveryRuns.SpecRightIff`).
- Text typed by a user can refer to a credential variable that is not set (`Credentials.UserTextUnset`);
  `Credentials.ClosureIff` gives the exact condition. Text that quotes several variables is no exception
  (`Credentials.TwoReferencesClosed`).
- Different sources can share a child pipeline (`Names.SanitizeCollides`, `Prefixes.NamesCollide`), exactly as
  `DiscoveryCycle.SharedChildIff` and `Prefixes.SharedNameIff` say.
- A child name of more than 244 characters is refused by the webhook: every cycle that must create it fails, and leaves
  every surplus child in place (`DiscoveryCycle.LongNameExists`, `DiscoveryCycle.LongNameStops`). The same holds of any
  refused child (`DiscoveryCycle.RefusedCycle`); `DiscoveryCycle.ReliableCycle` says when a cycle succeeds.
- The consumer total in the status is a 32-bit product that can wrap around (`ScalingMath.TotalOverflows`);
  `ScalingMath.TotalConsumers` says exactly when it is right.

Where code and documentation disagree the model follows the code: names of children are cut at 253 characters, not at 63
(`docs/concepts/source-discovery.md:196`), although the webhook refuses names above 244; the 20 percent batches apply to
updates, not to creations (`docs/concepts/source-discovery.md:258-260`); in automatic mode S3 pipelines get the lower
bound, not the fixed replica count.

## Model

| member | source | states |
|---|---|---|
| Graph.ValidateGraph | internal/validation/graph.go:14-61 | Accepts exactly the graphs with distinct names, resolved references and no cycle of sink edges; each rejection names a real duplicate, the first unresolved reference or an edge on a real cycle; acceptance comes with a ranking along which every edge descends |
| Graph.Search.Dfs | internal/validation/graph.go:36-52 | Keeps the grey-path invariant through recursion and early exit: grey nodes are the call stack, black nodes lead only to nodes finished earlier; the white nodes decrease, so it ends on cyclic graphs too; a cycle verdict names an edge that closes a cycle |
| Graph.Search.Follow | internal/validation/graph.go:40-48 | One edge out of the top of the stack: a grey target closes a cycle, a white one is expanded first, and an accepted one is finished |
| Graph.SearchAll | internal/validation/graph.go:53-59 | The outer loop finishes every pipeline, or stops at an edge that closes a cycle |
| Graph.CheckReferences | internal/validation/graph.go:15-31 | Passes exactly when names are distinct and every reference resolves, and reports the first offender |
| Graph.GreyEdgeClosesCycle | internal/validation/graph.go:40-43 | An edge from the top of the stack to a grey node lies on a cycle |
| Graph.Enter | internal/validation/graph.go:38-39 | Expanding a white node keeps the search invariant |
| Graph.Leave | internal/validation/graph.go:50-51 | Blackening a node whose successors are all finished keeps the search invariant |
| Graph.CycleInGraph | internal/validation/graph.go:40-43 | The reported edge starts a cycle of the pipeline graph itself |
| Graph.RankedIsAcyclic | internal/validation/graph.go:13 | A graph with a descending ranking has no cyclic path of any length |
| Graph.SourceCycleAccepted | internal/validation/graph.go:32-35 | Two pipelines that name each other as source are accepted |
| Graph.LinkAcyclicIffMirrorValid | internal/validation/graph.go:32-35 | An accepted graph has no cycle of source and sink links together if and only if its mirror, with sources rewritten as sinks, is accepted |
| Merge.MergeSpec | internal/defaults/merger.go:11-73 | The result is the field-by-field merge in cells of its own: what the spec sets is kept, what it leaves unset is the default's, everything else is unchanged; though the code writes through pointers, no Kafka or OpenSearch cell of the input changes |
| Cells.DeepCopy | internal/defaults/merger.go:12 | The copy holds the same spec and shares no cell with anything that existed before |
| Merge.FillKafka | internal/defaults/merger.go:37-51 | Fills exactly the empty fields of every Kafka source the list reaches, in place and aliases included |
| Merge.FillOpenSearch | internal/defaults/merger.go:53-70 | Fills exactly the empty fields of every OpenSearch sink the list reaches, in place and aliases included |
| Merge.MergeIdempotent | internal/defaults/merger.go:11-73 | Merging the same defaults twice is merging them once |
| Merge.MergeFills | internal/defaults/merger.go:11-73 | Own values win over defaults in every field, Kafka source and OpenSearch sink, and without defaults nothing changes |
| Generate.GeneratePipelineConfig | internal/generator/pipeline_config.go:14-68 | Succeeds exactly when every definition can be generated, and otherwise reports the first that cannot; with different names, every definition, its logins and its processors are read back from the document under the definition's name |
| ReadBack.EntryReadsBack | internal/generator/pipeline_config.go:17-65 | Workers, delay, buffer sizes, routes, source, sinks in order, logins and processors are each read back from their own key of a generated entry |
| ReadBack.SourceReadsBack | internal/generator/pipeline_config.go:70-206 | A generated source shows the member that counts, field by field: servers, topic, group, encryption and consumer settings; port and path; bucket, prefix, region, queue, codec and compression; with the threads per pod, and with user name and password each under its own key exactly when there is a secret |
| ReadBack.SinkReadsBack | internal/generator/pipeline_config.go:234-318 | A generated sink shows the member that counts, field by field, and logs in with its own kind's user name and password exactly when it has a secret |
| ReadBack.DocumentReadsBack | internal/generator/pipeline_config.go:14-68 | In a document of several definitions with different names, each name holds the entry of its own definition |
| ReadBack.LastRouteWins | internal/generator/pipeline_config.go:49-55 | Of several routes with one name the last one is in the document |
| ReadBack.RoutesComeFrom | internal/generator/pipeline_config.go:49-55 | Every route in the document comes from some entry of the list |
| Config.ReadEntryBack | internal/generator/pipeline_config.go:70-89 | The graph node read back from a generated entry is the definition's own |
| Config.ReadSinksBack | internal/generator/pipeline_config.go:234-257 | The connector names read back from generated sinks are the definition's, in order |
| Placeholders.ConfigRefers | internal/generator/pipeline_config.go:14-68 | By its text, the document refers to a variable, named by letters, digits and underscores, only if some definition needs it or user text contains a reference to it and, with distinct names, whenever that is so |
| Placeholders.EntrySays | internal/generator/pipeline_config.go:14-68 | A text is in a generated entry if and only if the user wrote it into a field that is copied, or it refers to a credential the definition needs |
| Placeholders.SpellsOne | internal/generator/pipeline_config.go:109-110 | What the operator writes refers to exactly one variable |
| Placeholders.SpellsTwo | internal/generator/pipeline_config.go:109-110 | A text that quotes two variables refers to these two and to no third one that would span both |
| Placeholders.SourceSays | internal/generator/pipeline_config.go:70-178 | A generated source holds the user's texts and, exactly for a Kafka source with credentials, the two references |
| Placeholders.SinkSays | internal/generator/pipeline_config.go:234-318 | A generated sink holds the user's texts and the references of the union member that wins |
| Credentials.CredentialEnvVars | internal/generator/deployment.go:171-229 | Despite flags and early exits: no variable twice, and each of the six variables is set exactly when its kind has a holder, from its own key of the secret of the first holder in traversal order |
| Credentials.EnvNamesUnique | internal/generator/deployment.go:171-229 | Variable names are pairwise different |
| Credentials.ReferencedSecrets | internal/controller/dataprepperpipeline_controller.go:436-479 | The referenced secrets in order of first occurrence, without repetition: exactly those that some source or sink names |
| Credentials.CredentialClosure | internal/generator/deployment.go:171-229 | Every variable the document refers to, unless only user text without a holder does, has exactly one variable of that name, taken from the first holder of its kind, and its secret is in the referenced list |
| Credentials.ClosureIff | internal/generator/deployment.go:171-229 | Every variable the document refers to is set if and only if each variable spelled in user text has a holder of its kind |
| Credentials.TwoReferencesClosed | internal/generator/deployment.go:171-229 | A user text with both Kafka references in a pipeline with credentials: the document refers to these two variables, and both are set |
| Credentials.SetIffHeld | internal/generator/deployment.go:171-229 | A variable is set exactly when it is a credential variable and the spec has a holder of its kind |
| Credentials.UserTextUnset | internal/generator/pipeline_config.go:130-138 | A pipeline whose HTTP path spells a Kafka variable that is not set |
| Credentials.EnvSecretsReferenced | internal/controller/dataprepperpipeline_controller.go:436-479 | The secret of every environment variable is a referenced secret |
| Credentials.MergedSecrets | internal/defaults/merger.go:37-70 | Merging keeps every referenced secret and adds exactly the defaults' secrets where they are injected |
| Admission.ValidatePipelineDefinitions | api/v1alpha1/dataprepperpipeline_webhook.go:113-170 | Accepts exactly the well-formed definitions with distinct names: one source member, at least one sink, one member per sink and codec |
| Admission.CountOne | api/v1alpha1/dataprepperpipeline_webhook.go:205-243 | A union count of one means that exactly one member is set |
| Admission.BuildGraphDefs | internal/controller/dataprepperpipeline_controller.go:143-154 | The nested loops build each definition's node, with the sink connectors in order |
| Admission.ValidatePipeline | api/v1alpha1/dataprepperpipeline_webhook.go:67-95 | The webhook admits exactly the specs that meet all its rules |
| Admission.ValidateScaling | api/v1alpha1/dataprepperpipeline_webhook.go:192-203 | Accepts exactly a positive fixed count in manual mode and bounds in order where both are set |
| Admission.MergeKeepsGraph | internal/controller/dataprepperpipeline_controller.go:139-155 | Merging leaves the graph alone, so webhook and reconciler always reach the same graph verdict |
| Admission.CompiledGraph | internal/generator/pipeline_config.go:14-68 | The document generated from an admitted and merged spec has one entry per pipeline, and the graph read back from it is the admitted one, hence valid |
| Admission.CompiledDefinition | internal/generator/pipeline_config.go:14-68 | Round trip: the definition read back from the document of an admitted and merged spec is the merged one, apart from secrets, processors, negative numbers and routes, which come as one map |
| Admission.AdmittedGenerates | internal/generator/pipeline_config.go:14-68 | Generation of an admitted spec fails if and only if a processor does not decode |
| Admission.NoIdleVariable | internal/generator/deployment.go:171-229 | Conversely to closure, every Kafka or OpenSearch variable of well-formed definitions is referred to |
| ScalingMath.RoundedCeiling | internal/scaler/scaler.go:32 | For 32-bit operands the ceiling of any quotient within relative error 2^-53 that is exact on integers is the integer ceiling |
| ScalingMath.KafkaScaling | internal/scaler/scaler.go:26-34 | The replicas are the partitions held between the bounds, the lower one winning; threads cover all partitions with no thread per pod to spare; one replica per partition when the bounds allow |
| ScalingMath.TotalConsumers | internal/controller/dataprepperpipeline_controller.go:398-402 | The 32-bit consumer total is right if and only if the partitions do not exceed the largest 32-bit multiple of the replicas, max(min(partitions, upper), lower); it exceeds the partitions by less than the replicas |
| ScalingMath.TotalNeverOverflows | internal/controller/dataprepperpipeline_controller.go:398-402 | Up to 2^30 partitions, and with one replica, the total is right |
| ScalingMath.TotalOverflows | internal/controller/dataprepperpipeline_controller.go:398-402 | 2147483647 partitions with both bounds at 2 give a total of -2147483648 |
| ScalingMath.CalculateScaling | internal/controller/dataprepperpipeline_controller.go:338-405 | The decision is the one the mode and the sources call for; in automatic mode the first Kafka pipeline's topic is the one looked up, and there is one exactly when some source is Kafka |
| ScalingMath.DecisionIs | internal/controller/dataprepperpipeline_controller.go:338-405 | Manual mode takes the fixed count; in automatic mode the first Kafka source decides by its lookup, otherwise S3 sources get the lower bound, and the autoscaler is used exactly when there is neither |
| ScalingMath.DecisionFits | internal/controller/dataprepperpipeline_controller.go:182-194 | With bounds the schema allows, and after the fallback, the decision has between 1 and 2^31-1 replicas and between 0 and 2^31-1 threads |
| ScalingMath.AlwaysAReplica | internal/controller/dataprepperpipeline_controller.go:182-194 | However the lookup ends there is a replica, and the calculation fails exactly on a failed lookup or a non-positive count |
| ScalingMath.AdmittedBounds | internal/controller/helpers.go:41-53 | Admitted bounds are in order if and only if not (upper bound unset and lower bound above 10) |
| ScalingMath.CrossedBoundsAdmitted | api/v1alpha1/dataprepperpipeline_webhook.go:192-203 | A concrete admitted spec whose bounds are crossed |
| Objects.Namespace.Apply | internal/controller/helpers.go:26-38 | One create-or-update or delete: refused when another controller owns the object, otherwise exactly that object changes; a failure changes nothing |
| Objects.Namespace.ApplyAll | internal/controller/dataprepperpipeline_controller.go:271-304 | Writes stop at the first failure, so a prefix of the steps takes effect |
| Objects.ExecIs | internal/controller/dataprepperpipeline_controller.go:271-304 | With one step per object, success is decided by the store before the first step, and each object ends as its own step leaves it |
| Objects.StepsDecide | internal/controller/dataprepperpipeline_controller.go:481-591 | After success the operator-set fields of an object, or its absence, are those its step asks for |
| Objects.StepKeepsForeign | internal/controller/helpers.go:26-38 | What the controller does not set stays: foreign fields and references to other owners |
| Objects.SecondPass | internal/controller/dataprepperpipeline_controller.go:481-591 | Repeating a successful list of steps succeeds and changes nothing |
| Objects.RaceIsSequential | internal/controller/dataprepperpipeline_controller.go:271-304 | Every interleaving of two lists of steps, on different objects or deleting the same, leads to the store of one list after the other |
| Objects.JobsCommute | internal/controller/dataprepperpipeline_controller.go:271-304 | Such lists of steps commute, and neither decides whether the other succeeds |
| Objects.RefusedStays | internal/controller/helpers.go:36-37 | A list of steps that is refused an object leaves it as it was |
| Objects.MeetingDecides | internal/controller/dataprepperpipeline_controller.go:481-591 | Two lists that share one object commute from every store if and only if both delete it |
| Reconcile.Compile | internal/controller/dataprepperpipeline_controller.go:139-269 | Merging, validating, generating and hashing produce the plan, and stop without one exactly when the graph is invalid, or something does not decode, generate or marshal |
| Reconcile.CollectPorts | internal/generator/helpers.go:82-99 | Exactly the non-zero ports of HTTP and OpenTelemetry sources |
| Reconcile.NeedsService | internal/generator/helpers.go:69-79 | True exactly when monitoring is enabled or some pipeline has an HTTP or OpenTelemetry source |
| Reconcile.ReconcilePipeline | internal/controller/dataprepperpipeline_controller.go:139-304 | A pass without a plan writes nothing; otherwise a prefix of the plan takes effect, the whole plan exactly when the pass succeeds, and then the seven objects are, one by one, those that the merged spec, the scaling outcome and the secrets call for, whatever the store held before |
| Reconcile.Plan | internal/controller/dataprepperpipeline_controller.go:139-304 | The plan of a pass has one step for each of the pipeline's seven objects; the Service, headless Service, autoscaler and disruption budget are asked for exactly when they are needed and otherwise removed |
| Reconcile.PlanDeploys | internal/controller/dataprepperpipeline_controller.go:139-304 | Object by object: each document in its own ConfigMap under its own file name; the Deployment with the scaled replicas, the merged spec, both mounts, the open ports, the credential variables and the hash of both documents and the referenced secrets; the Service with 4900 and every source port; the autoscaler with the bounds; the budget with one replica less |
| Reconcile.MountsExist | internal/generator/deployment.go:52-79 | What the pods mount is in the store, and each ConfigMap holds the one file that is read from its mount path |
| Reconcile.TrafficReachesPods | internal/generator/service.go:15-51 | Both Services lead only to ports that the pods open, and they and the budget select what the Deployment selects; the budget leaves a pod to evict |
| Reconcile.VariablesReachPods | internal/generator/deployment.go:81-82 | The document refers only to variables the deployed pods have if and only if each variable spelled in user text has a holder of its kind |
| Reconcile.CoveredKeys | internal/controller/dataprepperpipeline_controller.go:271-304 | The steps of a plan are on pairwise different objects, and on no others than the pipeline's seven |
| Reconcile.OwnedDisjoint | internal/controller/dataprepperpipeline_controller.go:271-304 | Two names share no object if and only if they differ and neither is the other plus "-headless" |
| Reconcile.HistoryIndependent | internal/controller/dataprepperpipeline_controller.go:139-304 | From any two stores, successful passes with the same plan leave the same operator-set fields in all seven objects |
| Reconcile.Settles | internal/controller/dataprepperpipeline_controller.go:139-304 | A second pass is a no-op, and a pass leaves all other objects as they were |
| Reconcile.AdmittedHasPlan | internal/controller/dataprepperpipeline_controller.go:139-264 | Where documents marshal, an admitted pipeline has a plan if and only if all its processors decode and are objects |
| Reconcile.Isolated | internal/controller/dataprepperpipeline_controller.go:271-304 | Concurrent passes of two pipelines, each cut short anywhere, give in every interleaving the store of one after the other, in either order |
| Reconcile.HeadlessNameIsTaken | internal/controller/dataprepperpipeline_controller.go:528-544 | A pass without peers deletes the Service named after the pipeline plus "-headless", whoever owns it |
| Reconcile.CommuteIff | internal/controller/dataprepperpipeline_controller.go:528-544 | Passes of two pipelines commute from every store if and only if neither is named after the other plus "-headless", or both of them delete the Service they share |
| Reconcile.HeadlessOrderMatters | internal/controller/dataprepperpipeline_controller.go:528-544 | A concrete spec: with it a pipeline and the one named after it plus "-headless" leave an empty namespace with or without that Service, depending on the order |
| Reconcile.Scale | internal/controller/dataprepperpipeline_controller.go:181-194 | The scaling outcome of a merged spec, with the fallback to one replica; never fewer than one replica |
| Reconcile.ReconcileScaled | internal/controller/dataprepperpipeline_controller.go:139-304 | A pass with the scaling outcome computed from the merged spec: it is rejected, and writes nothing, exactly when there is no plan; on success the seven objects are, one by one, those that the spec, the defaults, the lookup and the secrets call for, whatever the namespace held before |
| Reconcile.HashReachesPods | internal/generator/deployment.go:27-31 | The pods carry the configuration hash if and only if the user has not set that annotation otherwise |
| Reconcile.SelectorHolds | internal/generator/deployment.go:33-36 | The Deployment selects its own pods if and only if the user's labels do not contradict the selector |
| Names.SanitizedIsName | internal/controller/datapreppersourcediscovery_controller.go:732-750 | Every source name becomes a non-empty name of lower-case letters, digits and inner hyphens, of at most 253 characters |
| Names.NameUnchanged | internal/controller/datapreppersourcediscovery_controller.go:732-750 | Such names are left alone |
| Names.SanitizeIdempotent | internal/controller/datapreppersourcediscovery_controller.go:732-750 | Sanitizing twice is sanitizing once |
| Names.SanitizeCollides | internal/controller/datapreppersourcediscovery_controller.go:732-750 | Two different names with the same result |
| Names.SharedNameIff | internal/controller/datapreppersourcediscovery_controller.go:732-750 | Two names have the same result if and only if what counts of them, truncation and "unnamed" included, differs only in case and in which separators are used |
| Names.SharedSuffixIff | internal/controller/datapreppersourcediscovery_controller.go:732-750 | Behind the same prefix, short names have the same result if and only if they are alike once the separators at their ends are dropped |
| Prefixes.ListAtDepth | internal/discovery/s3.go:88-110 | The recursion returns, without repetition, exactly the key prefixes that end at the d-th slash after the start |
| Prefixes.CommonIsDepthOne | internal/s3/client.go:82-103 | The common prefixes of an S3 listing are the prefixes at depth one |
| Prefixes.DepthComposes | internal/discovery/s3.go:101-109 | Depth a+b is depth b below the results of depth a |
| Prefixes.NamesCollide | internal/discovery/s3.go:149-153 | Two prefixes at the same depth with the same source name |
| Prefixes.PrefixReadsBack | internal/discovery/s3.go:149-153 | A source name has no slash, and a prefix without hyphens can be read back from it |
| Prefixes.SharedNameIff | internal/discovery/s3.go:149-153 | Two prefixes share a name if and only if they differ only in slashes standing against hyphens |
| Render.LastOverrideWins | internal/controller/datapreppersourcediscovery_controller.go:545-555 | Each overridable field is that of the last matching override that sets it, else the template's; pod settings without a rule are always the template's |
| Render.LastOverrideWinsKey | internal/controller/datapreppersourcediscovery_controller.go:607-624 | Annotations, labels and node selector are decided key by key in the same way |
| Render.LastOfIs | internal/controller/datapreppersourcediscovery_controller.go:545-555 | What being the last setting means: some override sets it and no later one does, or none sets it |
| Render.CopyingRenders | internal/controller/datapreppersourcediscovery_controller.go:521-583 | The pipelines are those of the last matching override that has any, else the template's; in each Kafka source servers, credentials and encryption type are its own where set and the discovery's otherwise, and nothing else differs |
| Render.FilledOverridesAgree | internal/controller/datapreppersourcediscovery_controller.go:567-583 | Whether an override was already filled by an earlier source makes no difference to the rendered spec |
| Render.ApplyOverrides | internal/controller/datapreppersourcediscovery_controller.go:585-625 | The updates on references are the value-level overlay, with the override's pipeline list shared and not copied |
| Render.OverlaidValue | internal/controller/datapreppersourcediscovery_controller.go:604-606 | Reading the references gives the overlay of what they held |
| Render.InheritInPlace | internal/controller/datapreppersourcediscovery_controller.go:567-583 | Fills every reachable Kafka source in place, aliases included, and nothing else |
| Render.Overridden | internal/controller/datapreppersourcediscovery_controller.go:522-555 | The template with the matching overrides, in cells that are new or the overrides' own |
| Render.RenderSpec | internal/controller/datapreppersourcediscovery_controller.go:521-562 | The rendered spec is that of a renderer which copies everything: pipelines of the last matching override or the template, with a Kafka source's own servers, credentials and encryption type winning over the discovery's; override cells are left as they were or filled |
| Render.RenderAgain | internal/controller/datapreppersourcediscovery_controller.go:386-393 | A source gets the spec it would get if no source had come before |
| Render.RenderNext | internal/controller/datapreppersourcediscovery_controller.go:386-393 | One more source disturbs no spec rendered before it |
| Render.BuildDesiredInPlace | internal/controller/datapreppersourcediscovery_controller.go:386-393 | After all sources, every name has the spec and hash that copying would give, whatever the list and its order, and that spec is the rendering of the last source of the name |
| Discovery.MovesEffect | internal/controller/datapreppersourcediscovery_controller.go:409-519 | What a cycle did is exactly what is no longer to do, and no other name changes its standing |
| Discovery.MovesOutcome | internal/controller/datapreppersourcediscovery_controller.go:425-438 | A child that a cycle writes gets the desired spec, hash, labels and controller, and keeps phase, orphaned label, other labels, annotations and owners; one that it releases loses the label and the owner reference and keeps the rest; every other child is as it was or, under Delete, gone |
| Discovery.MovesPaced | internal/controller/datapreppersourcediscovery_controller.go:483-490 | In plain numbers: at most the limit (10 by default) is created and at most a fifth of the children, rounded up, or one, is updated, none behind a closed gate; a complete cycle does less only when nothing is left |
| Discovery.SetOwnerIs | internal/controller/datapreppersourcediscovery_controller.go:436-438 | The owner reference takes the place of the first one to the same object, or is appended |
| Discovery.ControllableIff | internal/controller/datapreppersourcediscovery_controller.go:436-438 | The discovery may become controller exactly when the first controller reference, if any, is to itself |
| DiscoveryCycle.BuildDesired | internal/controller/datapreppersourcediscovery_controller.go:386-393 | There is a desired state exactly when every source renders; then each name holds the spec and hash of the last source with that name |
| DiscoveryCycle.LastSourceWins | internal/controller/datapreppersourcediscovery_controller.go:386-393 | For each desired name there is a last source that gives it, and the name holds what that source renders to |
| DiscoveryCycle.WantedNames | internal/controller/datapreppersourcediscovery_controller.go:636-639 | The names of the desired state are those that cleanup derives, collisions included |
| DiscoveryCycle.SharedChildIff | internal/controller/datapreppersourcediscovery_controller.go:391 | Two sources of a discovery share a child if and only if what counts of their names is alike; for short names, if and only if the names are alike without the separators at their ends |
| DiscoveryCycle.FindStale | internal/controller/datapreppersourcediscovery_controller.go:444-458 | The children with another hash than desired, each once, in any order |
| DiscoveryCycle.CheckHealth | internal/controller/datapreppersourcediscovery_controller.go:464-481 | True exactly when a child at its desired hash is in phase Degraded or Error |
| DiscoveryCycle.Cluster.CreateMissing | internal/controller/datapreppersourcediscovery_controller.go:409-442 | Creates only missing names, up to the limit and as many as the limit allows; without API failures it succeeds exactly when all it tried is permitted |
| DiscoveryCycle.Cluster.UpdateBatch | internal/controller/datapreppersourcediscovery_controller.go:483-517 | Updates only stale children, up to the batch size and as many as it allows; without API failures it succeeds exactly when all it tried is permitted |
| DiscoveryCycle.Cluster.RollOut | internal/controller/datapreppersourcediscovery_controller.go:444-518 | The rollout updates nothing behind a closed gate and behind an open one at most a fifth of the children, rounded up, or one, and reports what is pending |
| DiscoveryCycle.Cluster.ReconcilePipelines | internal/controller/datapreppersourcediscovery_controller.go:375-519 | In every order and whatever fails, only allowed moves are made; the counters are min(limit, missing) and updated plus pending equal to stale |
| DiscoveryCycle.Cluster.CleanupOrphans | internal/controller/datapreppersourcediscovery_controller.go:627-668 | Removes or releases only children that no current source asks for, and all of them when it succeeds; without API failures it succeeds exactly when the webhook admits every release |
| DiscoveryCycle.Cluster.CleanupOnDeletion | internal/controller/datapreppersourcediscovery_controller.go:278-311 | Under Orphan releases every labelled child, otherwise touches none; without API failures it succeeds exactly when the webhook admits every release |
| DiscoveryCycle.Cluster.Cycle | internal/controller/datapreppersourcediscovery_controller.go:375-519 | A whole cycle makes only allowed moves, in the pace and with the outcome for each child stated for `Discovery.MovesPaced` and `Discovery.MovesOutcome`, and all that it may make when it succeeds; without API failures it succeeds exactly when what it tried to write and to release is permitted; it removes or releases nothing unless everything it must write was tried and admitted |
| DiscoveryCycle.ReliableCycle | internal/controller/datapreppersourcediscovery_controller.go:375-519 | Without API failures: the cycle succeeds if every child it may write is admitted and controllable and every release admitted, and only if those it must write are; where the limits leave room for all that is missing and stale, this is an equivalence |
| DiscoveryCycle.RefusedCycle | internal/controller/datapreppersourcediscovery_controller.go:375-519 | A cycle that must write a refused child fails in every order, with or without API failures, and leaves every surplus child as it was |
| DiscoveryCycle.NameFitsIff | api/v1alpha1/dataprepperpipeline_webhook.go:69-71 | A child's name is short enough for the webhook if and only if what counts of the source's name has at most 244 characters |
| DiscoveryCycle.LongNameStops | api/v1alpha1/dataprepperpipeline_webhook.go:69-71 | A cycle that must create a child with a longer name fails and leaves every surplus child as it was |
| DiscoveryCycle.LongNameExists | internal/controller/datapreppersourcediscovery_controller.go:743-745 | A source whose child name has 252 characters |
| DiscoveryCycle.NoStalledWork | internal/controller/datapreppersourcediscovery_controller.go:262-274 | A source without a child brings the controller back in one second, a stale child in at most thirty; with nothing stale, and the limit not hit with sources to spare, it comes back after the poll interval |
| DiscoveryRuns.CycleProgress | internal/controller/datapreppersourcediscovery_controller.go:409-517 | A complete cycle leaves max(0, missing - limit) missing, max(0, stale - batch) stale and no surplus |
| DiscoveryRuns.NoGroundLost | internal/controller/datapreppersourcediscovery_controller.go:409-517 | No cycle, complete or not, adds to what is missing, stale or surplus |
| DiscoveryRuns.StaleBound | internal/controller/datapreppersourcediscovery_controller.go:483-517 | The batch never falls below a fifth of what was stale at first, though the number of children changes |
| DiscoveryRuns.FiveRollouts | internal/controller/datapreppersourcediscovery_controller.go:483-517 | Five complete cycles with an open gate update every child, from any store |
| DiscoveryRuns.SettledIff | internal/controller/datapreppersourcediscovery_controller.go:444-458 | The labelled children are the desired ones with the desired hashes if and only if nothing is missing, stale or surplus |
| DiscoveryRuns.FixedPoints | internal/controller/datapreppersourcediscovery_controller.go:375-519 | A complete cycle behind an open gate changes nothing if and only if the store is settled |
| DiscoveryRuns.Converges | internal/controller/datapreppersourcediscovery_controller.go:375-519 | Every run with enough complete cycles and five open gates is settled from then on, whatever failed in between, later cycles change nothing, and the children have their desired specs unless they started with the right hash over another spec |
| DiscoveryRuns.WrittenStays | internal/controller/datapreppersourcediscovery_controller.go:425-438 | Every child that some cycle created or updated holds its desired spec and hash from then on |
| DiscoveryRuns.SpecRightIff | internal/controller/datapreppersourcediscovery_controller.go:444-458 | A child with its desired hash has its desired spec if and only if it did not start the run with that hash over another spec |
| DiscoveryRuns.EditedChildStays | internal/controller/datapreppersourcediscovery_controller.go:444-458 | A child edited by hand under the right hash counts as settled |
| DiscoveryRuns.GatePauses | internal/controller/datapreppersourcediscovery_controller.go:464-481 | While the gate is closed no labelled child that a source asks for changes |
| DiscoveryRuns.BlastRadius | internal/controller/datapreppersourcediscovery_controller.go:464-517 | If updating breaks children, a cycle that updates any is the last one that does, and it updates one child or a fifth of those it found, rounded up |
| DiscoveryRuns.TotalBlastRadius | internal/controller/datapreppersourcediscovery_controller.go:464-517 | Then all children updated in the whole run are those of one cycle, the first that updated any, at most a fifth of the children it found, rounded up |
| DiscoveryRuns.RunCycles | internal/controller/datapreppersourcediscovery_controller.go:375-519 | Any number of cycles of the controller, whatever fails in them and however the cluster drifts in between, is a run in the sense of these results; without API failures every permitted cycle in it is complete; if moreover the gate stays open, five cycles or more that suffice for the limit leave the cluster settled; every child the run wrote holds its desired spec |
| DiscoveryRuns.UnhinderedSettles | internal/controller/datapreppersourcediscovery_controller.go:375-519 | A run of five or more complete cycles behind an open gate, with room for all that was missing, ends settled |
| Ownership.RunKeepsSafe | internal/controller/datapreppersourcediscovery_controller.go:119-139 | Under the Orphan policy every interleaving of controller steps, edits of children and of the discovery object, deletions and garbage collection keeps a child safe, unless a listing finds it owned without the label or the finalizer is removed by hand while the child is owned or the controller at work |
| Ownership.InsideKeepsSafe | internal/controller/datapreppersourcediscovery_controller.go:119-139 | Every controller step keeps it safe except such a listing: the finalizer is written before a child is adopted and removed after every listed child is released |
| Ownership.OutsideKeepsSafe | internal/controller/datapreppersourcediscovery_controller.go:119-139 | So does every step of the user and the cluster, edits of the child's labels and owners included, except removing the finalizer as above |
| Ownership.Collectability | internal/controller/datapreppersourcediscovery_controller.go:278-311 | After any run a child may be collected if and only if discovery objects are its only owners, each gone or being deleted in the foreground |
| Ownership.ChildrenSurvive | internal/controller/datapreppersourcediscovery_controller.go:278-311 | Without foreground deletion, and without those two steps, no run loses a child that the user does not delete |
| Ownership.MissedIsLost | internal/controller/datapreppersourcediscovery_controller.go:282-285 | From every listing that does find it so, the run can go on to lose it in a background deletion |
| Ownership.ListingDecides | internal/controller/datapreppersourcediscovery_controller.go:282-285 | At the listing of a background deletion the child can be lost, with no further such step, if and only if it is owned without the label |
| Ownership.DropIsLost | internal/controller/datapreppersourcediscovery_controller.go:119-139 | Whenever the finalizer is removed by hand while the child is owned or the controller at work, the run can go on to lose the child in a background deletion |
| Ownership.DropDecides | internal/controller/datapreppersourcediscovery_controller.go:119-139 | When the finalizer is removed by hand the child can be lost, with no further such step, if and only if it is owned by the discovery object or the controller is at work |
| Ownership.DroppedLosesChild | internal/controller/datapreppersourcediscovery_controller.go:119-139 | A run in which the finalizer is removed by hand and an ordinary deletion then loses the child, before the controller puts the finalizer back |
| Ownership.UnlabelledLosesChild | internal/controller/datapreppersourcediscovery_controller.go:282-285 | A run in which the label is taken off a child and an ordinary deletion of the discovery object then loses it |
| Ownership.GoneMeansReleased | internal/controller/datapreppersourcediscovery_controller.go:291-304 | Once the discovery object is gone a safe child has only other, living owners |
| Ownership.ForegroundLosesChild | internal/controller/datapreppersourcediscovery_controller.go:278-311 | A run with a foreground deletion in which the collector takes a child although the finalizer is still there |
| Ownership.NothingLeaks | internal/controller/datapreppersourcediscovery_controller.go:305-308 | Once the discovery object is gone, every labelled child whose label was left to the controller and that has no other living owner can be collected |
| Backoff.CountRoundTrip | internal/controller/datapreppersourcediscovery_controller.go:810-812 | Parsing the decimal text of a count gives it back |
| Backoff.FailureRecord.RetryOnConflict | internal/controller/datapreppersourcediscovery_controller.go:163-169 | Each attempt overwrites the object in memory before changing it, so whatever it held has no influence and the stored count changes once |
| Backoff.FailureRecord.OnFailure | internal/controller/datapreppersourcediscovery_controller.go:156-178 | Despite the increment in memory and one more in every attempt, the stored count rises by one or, if it cannot be written, stays |
| Backoff.FailureRecord.OnSuccess | internal/controller/datapreppersourcediscovery_controller.go:180-191 | A success clears the count if it can be written |
| Backoff.FailuresCounted | internal/controller/datapreppersourcediscovery_controller.go:156-191 | From any annotation, the count after any run is, modulo 64-bit wrap-around, the number of recorded failures since the last recorded success, on top of the old count if there was none |
| Backoff.NthFailureDelay | internal/controller/datapreppersourcediscovery_controller.go:824-833 | From any annotation, the failure that raises the count to n waits 30, 60, 120, 240 and from the fifth on 300 seconds, and 30 seconds if n is not positive |
| Backoff.DelayMonotone | internal/controller/datapreppersourcediscovery_controller.go:824-833 | The delay never shrinks as failures accumulate |

## Left out

- Clients for Kafka, S3 and Kubernetes, events, metrics and logs: their results are inputs of the model.
- Cache staleness, leader election and schema defaulting of the API server: not part of the modelled code.
- Template text, JSON and YAML encoding, SHA-256 and shell patterns: function parameters, with no injectivity assumed.
- Objects.StepsDecide: of a Deployment, replicas, selector, ports, mounts, variables, pod labels and annotations are computed, ports and variables as sets; image, resources and scheduling are kept as the merged spec they are copied from, and probes and container defaults are constants that are not spelled out.
- Reconcile.ReconcilePipeline: finalizer, status, phase, conditions and the ServiceMonitor are not written, because status is not history independent and ServiceMonitor errors are swallowed.
- DiscoveryRuns.BlastRadius: assumes that an updated child is seen unhealthy by every later cycle, because the gate looks at the status only and a child with no ready replica is merely pending; hashes are assumed not to be empty.
- DiscoveryRuns.Converges: deletion is atomic, and labelled children are changed by nobody else between cycles except in their phase.
- Ownership.ChildrenSurvive: the discovery object keeps its name and the Orphan policy (edits may remove its finalizer); edits of a child may set any label and drop any owner, but add only owners that are alive and no discovery object.
- Placeholders.ConfigRefers: looks at the texts of the document; keys, such as route names, are not searched.
- Merge.MergeSpec: Kafka sources and OpenSearch sinks are cells; the other members are values, because the code replaces them and never writes into them.
- Prefixes.ListAtDepth: sorting of sources, exclusion patterns and queue mapping of the S3 discoverer are not modelled.
- Render.BuildDesiredInPlace: Kafka sources and OpenSearch sinks live on the heap; sharing of other pointers is not modelled, because the code never writes through them.
- Discovery of Kafka topics, and the defaults controller: filters and status only.
- Stability of replicas under an autoscaler: each pass writes the lower bound back.
