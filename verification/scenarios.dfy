/**
 * Concrete cases of the bootstrap filter: a config that differs from the
 * desired one only by the webhook's files and command matches when it
 * carries the marker, and does not match when it lacks it.
 */
module Scenarios {
  import opened Wrappers
  import opened Api
  import opened Normalization
  import opened MachineFilters

  const AppFile: File := File("/etc/app.conf", map[])

  /** The desired spec: one file of the user's own, no commands. */
  const Desired: ConfigSpec := ConfigSpec(Some([AppFile]), None, map[])

  /** The same spec after the webhook added its files around the user's and its command. */
  const Injected: ConfigSpec := ConfigSpec(
    Some([File("/etc/rancher/agent/config.yaml", map[]), AppFile, File("/opt/system-agent-install.sh", map[])]),
    Some([InjectedCommand]),
    map[])

  /** A machine with a bootstrap reference and no server-config annotation. */
  const Node: Machine := Machine("cp-0", map[], Some("v1.28.5+rke2r1"), true)

  function Plane(): ControlPlane
  {
    ControlPlane("v1.28.5+rke2r1", EmptyServerConfig, Desired, InfrastructureRef("tmpl", "DockerMachineTemplate.infrastructure.cluster.x-k8s.io"))
  }

  lemma {:induction false} MarkedInjectedConfigMatches(ext: Externals)
    ensures BootstrapConfigMatches(map["cp-0" := ConfigSnapshot(map[TurtlesSystemAgentAnnotation := ""], Injected)], Plane(), ext, Some(Node))
  {
    var files := Entries(Injected.files);
    assert files == [files[0]] + [AppFile] + [files[2]];
    WithoutAppend([files[0]] + [AppFile], [files[2]], IsInjectedFile);
    WithoutAppend([files[0]], [AppFile], IsInjectedFile);
    assert Without(files, IsInjectedFile) == [AppFile];
    assert Without([InjectedCommand], IsInjectedCommand) == [];
  }

  lemma UnmarkedInjectedConfigDoesNotMatch(ext: Externals)
    ensures !BootstrapConfigMatches(map["cp-0" := ConfigSnapshot(map[], Injected)], Plane(), ext, Some(Node))
  {
    assert Injected.files != Desired.files;
  }
}
