/**
 * The parts of the Cluster API and RKE2 provider objects that the machine
 * filters read, and the external helpers they call.
 *
 * Only the fields the filters look at are kept; whatever else an object
 * holds is an opaque string map, so that equality of two values still
 * depends on it, as `reflect.DeepEqual` does.
 */
module Api {
  import opened Wrappers

  /** Annotation on a Machine holding the JSON of the server config it was created with. */
  const ServerConfigurationAnnotation: string := "controlplane.cluster.x-k8s.io/rke2-server-configuration"

  /** Annotations on an infrastructure machine naming the template it was cloned from. */
  const TemplateClonedFromNameAnnotation: string := "cluster.x-k8s.io/cloned-from-name"
  const TemplateClonedFromGroupKindAnnotation: string := "cluster.x-k8s.io/cloned-from-groupkind"

  /** Marker that the Rancher Turtles webhook puts on the RKE2Config objects it alters. */
  const TurtlesSystemAgentAnnotation: string := "cluster-api.cattle.io/turtles-system-agent"

  type Annotations = map<string, string>

  /** The RKE2 server configuration; its settings are opaque. */
  datatype ServerConfig = ServerConfig(settings: map<string, string>)

  /** The zero value `RKE2ServerConfig{}`. */
  const EmptyServerConfig: ServerConfig := ServerConfig(map[])

  /** A file to be written on the node; only its path is inspected. */
  datatype File = File(path: string, attributes: map<string, string>)

  /**
   * An RKE2ConfigSpec. `files` and `postRKE2Commands` are Go slices, so
   * None (nil) and Some([]) (empty, not nil) are different values.
   */
  datatype ConfigSpec = ConfigSpec(
    files: Option<seq<File>>,
    postRKE2Commands: Option<seq<string>>,
    other: map<string, string>)

  /** The value held by an RKE2Config object: its annotations and its spec. */
  datatype ConfigSnapshot = ConfigSnapshot(annotations: Annotations, spec: ConfigSpec)

  /** A Cluster API Machine: name, annotations, `Spec.Version` and whether `Spec.Bootstrap.ConfigRef` is set. */
  datatype Machine = Machine(
    name: string,
    annotations: Annotations,
    version: Option<string>,
    hasBootstrapConfigRef: bool)

  /** An infrastructure machine object; only its annotations are read. */
  datatype InfraObject = InfraObject(annotations: Annotations)

  /** The control plane's infrastructure template reference: its name and its group-kind string. */
  datatype InfrastructureRef = InfrastructureRef(name: string, groupKind: string)

  /** The parts of an RKE2ControlPlane the filters read. */
  datatype ControlPlane = ControlPlane(
    desiredVersion: string,
    serverConfig: ServerConfig,
    configSpec: ConfigSpec,
    infrastructureRef: InfrastructureRef)

  /**
   * Helpers the filters call but whose code is not part of this model:
   * the version utilities and the JSON decoding of the server-config
   * annotation. A decode that succeeds with None is the JSON `null`.
   */
  datatype Externals = Externals(
    isRKE2Version: string -> bool,
    compareVersions: (string, string) -> bool,
    rke2ToKubeVersion: string -> Result<string, string>,
    decodeServerConfig: string -> Result<Option<ServerConfig>, string>)
}
