# RKE2 control-plane machine-conformance filter

A Dafny model of the filter the RKE2 control-plane provider uses to decide
whether an existing control-plane Machine still conforms to its
RKE2ControlPlane (RCP), or must be rolled out
(`matchesRCPConfiguration` in `pkg/rke2/machine_filters.go`).

The filter is the conjunction, evaluated in order and stopping at the first
rejection, of three predicates:

- the **version filter**: a machine without `Spec.Version` never matches; an
  RKE2-form version is compared with the desired version; any other version
  is compared with the desired version translated to Kubernetes form, and a
  failed translation counts as a match;
- the **bootstrap-config filter**: the server-config annotation (missing:
  match; undecodable: mismatch; decoded `null`: the empty config) must equal
  the RCP's server config; then, if the machine has a bootstrap ConfigRef and
  its RKE2Config is known, that config's spec must equal the RCP's
  RKE2ConfigSpec, after the files and the command injected by the Rancher
  Turtles webhook are removed when the config carries the
  `cluster-api.cattle.io/turtles-system-agent` annotation;
- the **template-lineage filter**: when the machine's infrastructure object
  exists and carries both cloned-from annotations, they must equal the RCP's
  infrastructure reference name and group-kind.

The deliberate asymmetry is kept: missing information means "match",
corrupt information means "mismatch".

Layout:

- `wrappers.dfy` — `Option` (nil pointers and nil slices) and `Result`.
- `api.dfy` — the fields of Machine, RKE2Config, RKE2ControlPlane and the
  infrastructure object that the filter reads, the annotation keys, and
  `Externals`: the version helpers and the JSON decoder as function values.
  `Files` and `PostRKE2Commands` are `Option<seq<…>>`, so nil and empty stay
  distinct as they do for `reflect.DeepEqual`; `reflect.DeepEqual` is
  datatype equality.
- `normalization.dfy` — the removal of injected entries as pure functions
  (`Without`, `StripInjected`, `EffectiveSpec`) and its properties.
- `machine_filters.dfy` — the three predicates and their conjunction as pure
  functions, with the case rules as lemmas.
- `bootstrap_config.dfy` — the RKE2Config object as a class whose spec the
  filter overwrites in place, the `for`/`append` loops as a method proved
  equal to `Without`, and the filter closures as methods proved against the
  pure predicates. Because the filter writes the stripped lists back into
  the config held in the map, the methods also prove that this write-back
  leaves the verdict of every later evaluation, for any machine, unchanged.
- `scenarios.dfy` — a concrete config that differs from the desired one only
  by injected entries: it matches with the marker and not without it.

The version filter compares the machine's version directly when it is in
RKE2 form, and otherwise compares it with the desired version translated to
Kubernetes form (`pkg/rke2/machine_filters.go:173-182`). No ordering law such
as transitivity is assumed for CompareVersions.

## Model

| member | source | states |
|---|---|---|
| `BootstrapConfigs.MatchesRCPConfiguration` | pkg/rke2/machine_filters.go:19-29 | The verdict equals the conjunction of the version, bootstrap-config and template filters on the configs as they were; the filters run in order and the machine's config is rewritten only when the version filter accepted and the bootstrap check reached it; afterwards every machine's verdict is the same as before |
| `BootstrapConfigs.MatchesRKE2BootstrapConfig` | pkg/rke2/machine_filters.go:32-95 | The verdict equals the pure bootstrap filter on the configs as they were; the machine's config is rewritten with its effective spec exactly when the server config matched and a ConfigRef exists, and nothing else changes; afterwards every machine's bootstrap verdict is unchanged |
| `BootstrapConfigs.RKE2Config.DropInjectedEntries` | pkg/rke2/machine_filters.go:57-91 | With the marker annotation the spec becomes the stripped spec, otherwise it is unchanged; annotations and the rest of the spec are never touched |
| `BootstrapConfigs.KeepAll` | pkg/rke2/machine_filters.go:58-68 | The loop collects exactly `Without(s, drop)`: the entries not selected, in order |
| `Normalization.Without` | pkg/rke2/machine_filters.go:60-67 | The result is no longer than the input and holds exactly the input's entries that are not dropped |
| `Normalization.WithoutAppend` | pkg/rke2/machine_filters.go:78-84 | Filtering distributes over concatenation, so kept entries keep their relative order |
| `Normalization.WithoutCounts` | pkg/rke2/machine_filters.go:60-67 | Each dropped value occurs zero times in the result; every other value occurs as often as in the input |
| `Normalization.WithoutNothingToDrop` | pkg/rke2/machine_filters.go:60-67 | A list with no injected entries comes back unchanged |
| `Normalization.WithoutIdempotent` | pkg/rke2/machine_filters.go:78-84 | Filtering an already filtered list leaves it unchanged |
| `Normalization.StripInjectedFiles` | pkg/rke2/machine_filters.go:58-74 | Exactly the files at the three injected paths are removed, the others kept in order; an empty result is nil, never an empty list; nil exactly when every file was injected; the rest of the spec is unchanged |
| `Normalization.StripInjectedCommands` | pkg/rke2/machine_filters.go:76-90 | Exactly the commands equal to `sh /opt/system-agent-install.sh` are removed, the others kept in order; an empty result is nil; nil exactly when every command was the injected one; the rest of the spec is unchanged |
| `Normalization.StripInjectedIdempotent` | pkg/rke2/machine_filters.go:70-90 | Stripping an already stripped spec changes nothing |
| `Normalization.EffectiveSpecIdempotent` | pkg/rke2/machine_filters.go:57-94 | After the effective spec is written back into the config, its effective spec is the same, so a second evaluation compares the same value |
| `Normalization.EffectiveSpecWithoutMarker` | pkg/rke2/machine_filters.go:57-94 | Without the marker the spec compared is the config's own, injected entries included, and nothing is written back |
| `MachineFilters.NilMachineNeverMatches` | pkg/rke2/machine_filters.go:24-28 | A nil machine passes the bootstrap filter but fails the version and template filters, so it never matches |
| `MachineFilters.UnversionedMachineNeverMatches` | pkg/rke2/machine_filters.go:169-171 | A machine without `Spec.Version` never matches, whatever else it holds |
| `MachineFilters.CorruptServerConfigNeverMatches` | pkg/rke2/machine_filters.go:106-110 | A server-config annotation that fails to decode makes the server-config check and the whole filter reject the machine |
| `MachineFilters.RKE2VersionComparedDirectly` | pkg/rke2/machine_filters.go:173-175 | An RKE2-form machine version matches iff CompareVersions(machine version, desired version) holds |
| `MachineFilters.UntranslatableVersionMatches` | pkg/rke2/machine_filters.go:177-180 | For a version not in RKE2 form, a failed translation of the desired version gives a match |
| `MachineFilters.KubeVersionComparedToTranslation` | pkg/rke2/machine_filters.go:177-182 | For a version not in RKE2 form, the machine matches iff CompareVersions(machine version, translated desired version) holds |
| `MachineFilters.AbsentServerConfigMatches` | pkg/rke2/machine_filters.go:100-104 | Without the server-config annotation the server config matches |
| `MachineFilters.DecodedServerConfigCompared` | pkg/rke2/machine_filters.go:106-126 | A decoded annotation matches iff it equals the RCP server config, a decoded null counting as the empty config; the empty-RCP-config branch makes no difference |
| `MachineFilters.ServerConfigMismatchFirst` | pkg/rke2/machine_filters.go:39-41 | A server-config mismatch rejects the machine whatever its RKE2Config holds |
| `MachineFilters.MissingConfigRefMatches` | pkg/rke2/machine_filters.go:43-48 | With a matching server config and no bootstrap ConfigRef the machine passes the bootstrap filter |
| `MachineFilters.MissingConfigMatches` | pkg/rke2/machine_filters.go:50-55 | With a matching server config and no RKE2Config for the machine's name the machine passes |
| `MachineFilters.UnmarkedConfigComparedAsIs` | pkg/rke2/machine_filters.go:57-94 | Without the marker the machine passes iff its config's spec equals the RCP's unmodified |
| `MachineFilters.MarkedConfigComparedStripped` | pkg/rke2/machine_filters.go:57-94 | With the marker the machine passes iff the stripped spec equals the RCP's |
| `MachineFilters.BootstrapVerdictIgnoresWriteBack` | pkg/rke2/machine_filters.go:70-94 | Replacing any configs by their written-back form changes no bootstrap verdict, for any machine |
| `MachineFilters.VerdictIgnoresWriteBack` | pkg/rke2/machine_filters.go:19-29 | Replacing any configs by their written-back form changes no overall verdict, for any machine |
| `MachineFilters.MissingInfraObjectMatches` | pkg/rke2/machine_filters.go:136-140 | A machine with no infrastructure object passes the template filter |
| `MachineFilters.MissingLineageMatches` | pkg/rke2/machine_filters.go:142-150 | An infrastructure object missing either cloned-from annotation passes |
| `MachineFilters.LineageCompared` | pkg/rke2/machine_filters.go:152-158 | Otherwise the machine passes iff the cloned-from name equals the reference's name and the group-kind equals the reference's group-kind string |
| `Scenarios.MarkedInjectedConfigMatches` | pkg/rke2/machine_filters.go:57-94 | A marked config whose files and commands differ from the desired spec only by the injected entries passes the bootstrap filter |
| `Scenarios.UnmarkedInjectedConfigDoesNotMatch` | pkg/rke2/machine_filters.go:57-94 | The same config without the marker fails it: injected entries take part in the comparison |

## Left out

- `pkg/rke2/management_cluster.go` (listing machines, workload-cluster client construction, etcd CA key-pair lookup and generation): thin wrappers over client calls against the API server and secret handling whose code is not part of this model: they delegate (listing machines and applying the filters to them), set the 30-second client timeout, and return or wrap the callees' errors; `getEtcdCAKeyPair` returns no key pair and no error when the lookup finds nothing and reports no error, since wrapping a nil error gives nil.
- JSON decoding of the server-config annotation is the function value `Externals.decodeServerConfig`, not a parser; the server config itself is an opaque settings map.
- `IsRKE2Version`, `CompareVersions` and `Rke2ToKubeVersion` are function values of `Externals`, with no laws assumed, because their code is not part of this model.
- `GroupVersionKind().GroupKind().String()` of the infrastructure reference is an opaque string field; its derivation from API version and kind is not modelled. `rcp.GetDesiredVersion()` is the field `desiredVersion`.
- `collections.And` is not part of this model; its in-order, stop-at-first-false evaluation is written out in `MatchesRCPConfiguration`.
- The values of the server-config and cloned-from annotation keys live in API packages that are not part of this model; the filters only depend on them being fixed keys.
- A nil `*RKE2Config` stored in `machineConfigs`, a nil `*unstructured.Unstructured` stored in `infraConfigs` (the source dereferences both and would panic) and a nil RCP are not representable: values of both maps and the control plane are always present.
- Kubernetes objects keep only the fields the filters read; the rest of an RKE2ConfigSpec and of a file is an opaque map that still takes part in equality.
