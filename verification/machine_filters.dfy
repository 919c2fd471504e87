/**
 * The machine-conformance predicates of pkg/rke2/machine_filters.go as
 * pure functions of the objects they read. `Matches` is the verdict
 * `matchesRCPConfiguration` gives for one machine; `None` stands for a
 * nil machine pointer.
 */
module MachineFilters {
  import opened Wrappers
  import opened Api
  import opened Normalization

  /** matchesKubernetesOrRKE2Version. */
  predicate VersionMatches(desired: string, ext: Externals, machine: Option<Machine>)
  {
    match machine
    case None => false
    case Some(m) =>
      match m.version
      case None => false
      case Some(v) =>
        if ext.isRKE2Version(v) then ext.compareVersions(v, desired)
        else
          match ext.rke2ToKubeVersion(desired)
          case Failure(_) => true
          case Success(kube) => ext.compareVersions(v, kube)
  }

  /** matchServerConfig. */
  predicate ServerConfigMatches(rcp: ControlPlane, m: Machine, ext: Externals)
  {
    if ServerConfigurationAnnotation !in m.annotations then true
    else
      match ext.decodeServerConfig(m.annotations[ServerConfigurationAnnotation])
      case Failure(_) => false
      case Success(decoded) =>
        var machineConfig := decoded.GetOr(EmptyServerConfig);
        var rcpConfig := if rcp.serverConfig == EmptyServerConfig then EmptyServerConfig else rcp.serverConfig;
        machineConfig == rcpConfig
  }

  /** Whether the bootstrap check gets as far as comparing (and rewriting) the machine's RKE2Config. */
  predicate ReachesSpecComparison(rcp: ControlPlane, m: Machine, ext: Externals)
  {
    ServerConfigMatches(rcp, m, ext) && m.hasBootstrapConfigRef
  }

  /** matchesRKE2BootstrapConfig, over the values held in `configs`. */
  predicate BootstrapConfigMatches(configs: map<string, ConfigSnapshot>, rcp: ControlPlane, ext: Externals, machine: Option<Machine>)
  {
    match machine
    case None => true
    case Some(m) =>
      if !ServerConfigMatches(rcp, m, ext) then false
      else if !m.hasBootstrapConfigRef then true
      else if m.name !in configs then true
      else EffectiveSpec(configs[m.name]) == rcp.configSpec
  }

  /** matchesTemplateClonedFrom. */
  predicate TemplateMatches(infra: map<string, InfraObject>, rcp: ControlPlane, machine: Option<Machine>)
  {
    match machine
    case None => false
    case Some(m) =>
      if m.name !in infra then true
      else
        var annotations := infra[m.name].annotations;
        if TemplateClonedFromNameAnnotation !in annotations || TemplateClonedFromGroupKindAnnotation !in annotations then true
        else if annotations[TemplateClonedFromNameAnnotation] != rcp.infrastructureRef.name
             || annotations[TemplateClonedFromGroupKindAnnotation] != rcp.infrastructureRef.groupKind then false
        else true
  }

  /** matchesRCPConfiguration: the conjunction of the three filters. */
  predicate Matches(infra: map<string, InfraObject>, configs: map<string, ConfigSnapshot>, rcp: ControlPlane, ext: Externals, machine: Option<Machine>)
  {
    && VersionMatches(rcp.desiredVersion, ext, machine)
    && BootstrapConfigMatches(configs, rcp, ext, machine)
    && TemplateMatches(infra, rcp, machine)
  }

  // ---------------------------------------------------------------- overall filter

  /** A nil machine never matches, although the bootstrap filter alone accepts it. */
  lemma NilMachineNeverMatches(infra: map<string, InfraObject>, configs: map<string, ConfigSnapshot>, rcp: ControlPlane, ext: Externals)
    ensures BootstrapConfigMatches(configs, rcp, ext, None)
    ensures !VersionMatches(rcp.desiredVersion, ext, None) && !TemplateMatches(infra, rcp, None)
    ensures !Matches(infra, configs, rcp, ext, None)
  {
  }

  /** A machine without `Spec.Version` never matches, whatever else it holds. */
  lemma UnversionedMachineNeverMatches(infra: map<string, InfraObject>, configs: map<string, ConfigSnapshot>, rcp: ControlPlane, ext: Externals, m: Machine)
    requires m.version.None?
    ensures !Matches(infra, configs, rcp, ext, Some(m))
  {
  }

  /** A server-config annotation that does not decode always forces a rollout. */
  lemma CorruptServerConfigNeverMatches(infra: map<string, InfraObject>, configs: map<string, ConfigSnapshot>, rcp: ControlPlane, ext: Externals, m: Machine)
    requires ServerConfigurationAnnotation in m.annotations
    requires ext.decodeServerConfig(m.annotations[ServerConfigurationAnnotation]).Failure?
    ensures !ServerConfigMatches(rcp, m, ext)
    ensures !Matches(infra, configs, rcp, ext, Some(m))
  {
  }

  // ---------------------------------------------------------------- version filter

  /** A version in RKE2 form is compared with the desired version as given. */
  lemma RKE2VersionComparedDirectly(desired: string, ext: Externals, m: Machine, v: string)
    requires m.version == Some(v) && ext.isRKE2Version(v)
    ensures VersionMatches(desired, ext, Some(m)) == ext.compareVersions(v, desired)
  {
  }

  /** Otherwise, when the desired version cannot be translated to Kubernetes form, the machine matches. */
  lemma UntranslatableVersionMatches(desired: string, ext: Externals, m: Machine, v: string)
    requires m.version == Some(v) && !ext.isRKE2Version(v)
    requires ext.rke2ToKubeVersion(desired).Failure?
    ensures VersionMatches(desired, ext, Some(m))
  {
  }

  /** Otherwise the machine's version is compared with the translated desired version. */
  lemma KubeVersionComparedToTranslation(desired: string, ext: Externals, m: Machine, v: string, kube: string)
    requires m.version == Some(v) && !ext.isRKE2Version(v)
    requires ext.rke2ToKubeVersion(desired) == Success(kube)
    ensures VersionMatches(desired, ext, Some(m)) == ext.compareVersions(v, kube)
  {
  }

  // ---------------------------------------------------------------- server config

  /** Without the annotation there is not enough information, so the server config matches. */
  lemma AbsentServerConfigMatches(rcp: ControlPlane, m: Machine, ext: Externals)
    requires ServerConfigurationAnnotation !in m.annotations
    ensures ServerConfigMatches(rcp, m, ext)
  {
  }

  /**
   * A decoded annotation matches exactly when it equals the control plane's
   * server config, a decoded `null` counting as the empty config; replacing
   * an empty desired config by a fresh empty one changes nothing.
   */
  lemma DecodedServerConfigCompared(rcp: ControlPlane, m: Machine, ext: Externals, decoded: Option<ServerConfig>)
    requires ServerConfigurationAnnotation in m.annotations
    requires ext.decodeServerConfig(m.annotations[ServerConfigurationAnnotation]) == Success(decoded)
    ensures ServerConfigMatches(rcp, m, ext) <==> decoded.GetOr(EmptyServerConfig) == rcp.serverConfig
    ensures decoded.None? ==> (ServerConfigMatches(rcp, m, ext) <==> rcp.serverConfig == EmptyServerConfig)
  {
  }

  // ---------------------------------------------------------------- bootstrap filter, in order

  /** A server-config mismatch decides the bootstrap filter before anything else is looked at. */
  lemma ServerConfigMismatchFirst(configs: map<string, ConfigSnapshot>, rcp: ControlPlane, ext: Externals, m: Machine)
    requires !ServerConfigMatches(rcp, m, ext)
    ensures !BootstrapConfigMatches(configs, rcp, ext, Some(m))
  {
  }

  /** With a matching server config and no bootstrap ConfigRef the machine is accepted. */
  lemma MissingConfigRefMatches(configs: map<string, ConfigSnapshot>, rcp: ControlPlane, ext: Externals, m: Machine)
    requires ServerConfigMatches(rcp, m, ext) && !m.hasBootstrapConfigRef
    ensures BootstrapConfigMatches(configs, rcp, ext, Some(m))
  {
  }

  /** A machine whose RKE2Config was not found is accepted. */
  lemma MissingConfigMatches(configs: map<string, ConfigSnapshot>, rcp: ControlPlane, ext: Externals, m: Machine)
    requires ServerConfigMatches(rcp, m, ext) && m.name !in configs
    ensures BootstrapConfigMatches(configs, rcp, ext, Some(m))
  {
  }

  /** Without the marker the config's spec is compared unmodified, injected entries included. */
  lemma UnmarkedConfigComparedAsIs(configs: map<string, ConfigSnapshot>, rcp: ControlPlane, ext: Externals, m: Machine)
    requires ReachesSpecComparison(rcp, m, ext) && m.name in configs
    requires TurtlesSystemAgentAnnotation !in configs[m.name].annotations
    ensures BootstrapConfigMatches(configs, rcp, ext, Some(m)) <==> configs[m.name].spec == rcp.configSpec
  {
    EffectiveSpecWithoutMarker(configs[m.name]);
  }

  /** With the marker the config's spec is compared after the injected entries are stripped. */
  lemma MarkedConfigComparedStripped(configs: map<string, ConfigSnapshot>, rcp: ControlPlane, ext: Externals, m: Machine)
    requires ReachesSpecComparison(rcp, m, ext) && m.name in configs
    requires TurtlesSystemAgentAnnotation in configs[m.name].annotations
    ensures BootstrapConfigMatches(configs, rcp, ext, Some(m)) <==> StripInjected(configs[m.name].spec) == rcp.configSpec
  {
  }

  /**
   * Writing effective specs back into any of the configs changes no
   * verdict of the bootstrap filter, for any machine.
   */
  lemma {:induction false} BootstrapVerdictIgnoresWriteBack(
    before: map<string, ConfigSnapshot>, after: map<string, ConfigSnapshot>,
    rcp: ControlPlane, ext: Externals, machine: Option<Machine>)
    requires after.Keys == before.Keys
    requires forall k :: k in before ==> after[k] == before[k] || after[k] == Normalized(before[k])
    ensures BootstrapConfigMatches(after, rcp, ext, machine) == BootstrapConfigMatches(before, rcp, ext, machine)
  {
    if machine.Some? && machine.value.name in before {
      EffectiveSpecIdempotent(before[machine.value.name]);
    }
  }

  /** The same for the overall filter. */
  lemma {:induction false} VerdictIgnoresWriteBack(
    infra: map<string, InfraObject>,
    before: map<string, ConfigSnapshot>, after: map<string, ConfigSnapshot>,
    rcp: ControlPlane, ext: Externals, machine: Option<Machine>)
    requires after.Keys == before.Keys
    requires forall k :: k in before ==> after[k] == before[k] || after[k] == Normalized(before[k])
    ensures Matches(infra, after, rcp, ext, machine) == Matches(infra, before, rcp, ext, machine)
  {
    BootstrapVerdictIgnoresWriteBack(before, after, rcp, ext, machine);
  }

  // ---------------------------------------------------------------- template filter

  /** A machine with no infrastructure object is accepted. */
  lemma MissingInfraObjectMatches(infra: map<string, InfraObject>, rcp: ControlPlane, m: Machine)
    requires m.name !in infra
    ensures TemplateMatches(infra, rcp, Some(m))
  {
  }

  /** An infrastructure object lacking either cloned-from annotation is accepted. */
  lemma MissingLineageMatches(infra: map<string, InfraObject>, rcp: ControlPlane, m: Machine)
    requires m.name in infra
    requires TemplateClonedFromNameAnnotation !in infra[m.name].annotations
          || TemplateClonedFromGroupKindAnnotation !in infra[m.name].annotations
    ensures TemplateMatches(infra, rcp, Some(m))
  {
  }

  /** Otherwise the machine matches exactly when both annotations equal the template reference. */
  lemma LineageCompared(infra: map<string, InfraObject>, rcp: ControlPlane, m: Machine, name: string, groupKind: string)
    requires m.name in infra
    requires TemplateClonedFromNameAnnotation in infra[m.name].annotations
    requires TemplateClonedFromGroupKindAnnotation in infra[m.name].annotations
    requires infra[m.name].annotations[TemplateClonedFromNameAnnotation] == name
    requires infra[m.name].annotations[TemplateClonedFromGroupKindAnnotation] == groupKind
    ensures TemplateMatches(infra, rcp, Some(m)) <==> name == rcp.infrastructureRef.name && groupKind == rcp.infrastructureRef.groupKind
  {
  }
}
