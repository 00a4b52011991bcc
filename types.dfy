/** The defaulting accessors of the `HelmRelease` custom resource
    (integrations/apis/flux.weave.works/v1beta1/types.go). The record types also carry
    fields the accessors do not read, so that the lemmas can show each accessor reads
    only its own field. Kubernetes metadata, status conditions and Helm values are
    left out. */
module V1beta1 {
  import opened Go

  /** `GitChartSource`: where a chart lives in git. */
  datatype GitChartSource = GitChartSource(gitURL: string, ref: string, path: string)

  /** `RepoChartSource`: where a chart lives in a chart repository. */
  datatype RepoChartSource = RepoChartSource(repoURL: string, name: string, version: string)

  /** `ChartSource`: two embedded pointers, "one of the following". */
  datatype ChartSource = ChartSource(git: Pointer<GitChartSource>, repo: Pointer<RepoChartSource>)

  /** `HelmReleaseSpec`; `Timeout` is an optional `*int64` in seconds. */
  datatype HelmReleaseSpec = HelmReleaseSpec(
    chartSource: ChartSource,
    releaseName: string,
    timeout: Pointer<Int64>,
    resetValues: bool,
    skipDepUpdate: bool)

  /** `HelmReleaseStatus`, without its conditions. */
  datatype HelmReleaseStatus = HelmReleaseStatus(releaseName: string, releaseStatus: string)

  /** `HelmRelease`, without its Kubernetes type and object metadata. */
  datatype HelmRelease = HelmRelease(spec: HelmReleaseSpec, status: HelmReleaseStatus)

  /** The ref assumed when a `GitChartSource` gives none. */
  const DefaultGitRef: string := "master"

  /** The install or upgrade timeout assumed when a release gives none, in seconds. */
  const DefaultTimeout: Int64 := 300

  /** `GitChartSource.RefOrDefault`. */
  function RefOrDefault(s: GitChartSource): (r: string)
    ensures s.ref == "" ==> r == DefaultGitRef
    ensures s.ref != "" ==> r == s.ref
    ensures r != ""
  {
    if s.ref == "" then DefaultGitRef else s.ref
  }

  /** `HelmRelease.GetTimeout`. */
  function GetTimeout(r: HelmRelease): (t: Int64)
    ensures r.spec.timeout == Nil ==> t == DefaultTimeout
    ensures r.spec.timeout.Addr? ==> t == r.spec.timeout.target
  {
    if r.spec.timeout == Nil then DefaultTimeout else r.spec.timeout.target
  }

  /** Applying the default twice changes nothing: the defaulted ref is a fixed point. */
  lemma RefOrDefaultIdempotent(s: GitChartSource)
    ensures RefOrDefault(s.(ref := RefOrDefault(s))) == RefOrDefault(s)
  {
  }

  /** `RefOrDefault` reads only the `Ref` field. */
  lemma RefOrDefaultReadsOnlyRef(a: GitChartSource, b: GitChartSource)
    requires a.ref == b.ref
    ensures RefOrDefault(a) == RefOrDefault(b)
  {
  }

  /** `GetTimeout` reads only `Spec.Timeout`: releases that agree on it agree on the
      timeout, whatever their other fields. */
  lemma GetTimeoutReadsOnlyTimeout(a: HelmRelease, b: HelmRelease)
    requires a.spec.timeout == b.spec.timeout
    ensures GetTimeout(a) == GetTimeout(b)
  {
  }
}
