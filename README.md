# Helm-values image resolver of a FluxHelmRelease, in Dafny

This project models how a `FluxHelmRelease` turns its Helm chart values into the
container/image pairs its `Containers()` method reports
(`cluster/kubernetes/resource/fluxhelmrelease.go`). It also models the two defaulting
accessors of the `HelmRelease` custom resource
(`integrations/apis/flux.weave.works/v1beta1/types.go`). The resolver is modelled as
written, defects included.

Files and modules:

- `go.dfy`, module `Go`: Go's nil-able pointer (`Pointer`), a slice that keeps nil and
  empty apart (`Slice`), and `Int64`.
- `image.dfy`, module `Image`: the shapes of `image.Name` and `image.Ref`, the zero
  `Ref{}`, what `image.ParseRef` returns, and the resolver's error values
  (`ErrMalformedImageID`, and `ParseErr` for whatever `ParseRef` reports).
- `fluxhelmrelease.dfy`, module `Resource`: the values tree, the resolver and its
  lemmas.
- `types.dfy`, module `V1beta1`: `RefOrDefault` and `GetTimeout`.

How the Go program maps onto the model:

- **Values tree.** A value's Go dynamic type is the datatype `Value`:
  `VStr` (`string`), `VStrMap` (`map[string]string`), `VAnyMap`
  (`map[string]interface{}`), and `VOther(id)` (one value of any other type, nil
  included; `id` only tells such values apart).
- **Outcomes.** Every resolver call ends in an `Outcome`: `Ok`, `Err(error)`, or
  `Panic`. `Panic` stands for the run-time panics of a failed type assertion and of a
  nil pointer dereference.
- **Unseen code.** `image.ParseRef` is `Env.parseRef`, a function value the model never
  looks inside. The properties say exactly which string it receives and when it is not
  called at all. `fmt`'s `%s` is applied to fallback tag values. On a string it is the
  string itself. On any other value it is `Env.format`, also left uninterpreted. That
  function sees the whole value, so two different numbers may render differently.
- **Map order.** A Go `range` over a map visits keys in an unspecified order. The loop
  of `createContainers` therefore takes that order as the parameter `order`.
  `IsIterationOrder` requires it to list every key exactly once. The loop's properties
  are proved for every such order.
- **Methods and functions.** `createContainers` is a method with a loop and an
  accumulator, as in the source. Its result is tied to the function `NestedSearch`.
  `Containers()` is a method because it calls `createContainers`. All other core
  functions are Dafny functions.

Behaviour as written, which the model reproduces. In several places the code does less
than its comments (lines 59 and 69-70) and function names suggest. The model follows
the code:

- In nested mode (no top-level `image` key), `createContainers` returns a fresh empty
  slice (line 81). Whatever the loop appended is discarded.
- The nested `name` check is inverted (lines 175-176). The type assertion runs only
  when the key is missing, so it runs on a nil interface and panics. When the key is
  present, the name stays `""`.
- A nested map with a `name` key but no usable `image` entry makes
  `processMaybeImageMap` return a nil pointer. Line 183 then dereferences it and panics.
- `processImageString` consults `imageTag` before `tag`. It appends the fallback tag
  even when the string already carries one.
- An unsupported `image` value is an `ErrMalformedImageID` in `processImageInfo` and in
  `findImage` at key `image`. In `processMaybeImageMap` it is silently nothing.

## Model

| member | source | states |
|---|---|---|
| `Resource.CreateContainers` | cluster/kubernetes/resource/fluxhelmrelease.go:48-82 | Empty values give `Ok(nil)`. With a top-level `image` key, the result is one container named `ChartGitPath` holding `processImageInfo`'s reference, or that call's error. Otherwise the result is the nested search over the given key order. An `Ok` result never holds more than one container. A panic happens only in nested mode. |
| `Resource.Containers` | cluster/kubernetes/resource/fluxhelmrelease.go:40-46 | Never reports an error. An error of `createContainers` becomes the nil slice. In nested mode the result is an empty slice, the nil slice, or a panic. In top-level mode it is the single container or nil. |
| `Resource.NestedSearch` | cluster/kubernetes/resource/fluxhelmrelease.go:71-81 | The nested-mode loop: the first failing `findImage` ends it with that failure. Any successful run returns an empty slice. |
| `Resource.NestedSearchOkIff` | cluster/kubernetes/resource/fluxhelmrelease.go:71-79 | The loop succeeds if and only if `findImage` succeeds at every key. |
| `Resource.NestedSearchFirstFailure` | cluster/kubernetes/resource/fluxhelmrelease.go:72-75 | If every key before position j succeeds and key j fails, the loop's result is key j's error or panic. |
| `Resource.NestedSearchFailureHasSource` | cluster/kubernetes/resource/fluxhelmrelease.go:72-75 | An error result is the error of some key's `findImage`. A panic result comes from some key's `findImage` panicking. |
| `Resource.NestedSearchOrderIrrelevantForSuccess` | cluster/kubernetes/resource/fluxhelmrelease.go:71-81 | For any two iteration orders of the same map, the loop succeeds under one exactly when it succeeds under the other, with the same result. |
| `Resource.NestedSearchCharacterised` | cluster/kubernetes/resource/fluxhelmrelease.go:71-81 | The loop either returns a fresh empty slice, or returns the error or panic of a key j such that every key before j succeeded and key j failed. |
| `Resource.NothingAppended` | cluster/kubernetes/resource/fluxhelmrelease.go:71-79 | With no top-level `image` key, the containers the loop appends (line 76-78) are none, for every order of keys. The loop's accumulator is tied to this function by an invariant. |
| `Resource.ProcessImageInfo` | cluster/kubernetes/resource/fluxhelmrelease.go:84-112 | Never panics. A string goes to `processImageString` with the given map. A `map[string]string` goes to `processImageMap`. Every other type is `ErrMalformedImageID`. |
| `Resource.FindImage` | cluster/kubernetes/resource/fluxhelmrelease.go:114-188 | Never panics at key `image`. At any other key: it never gives a non-empty name. A non-map value gives `("", Ref{})`. A nested map without `name` panics. A nested map whose `image` is missing or of an unsupported type panics. Otherwise the result is `""` with the reference or error of the nested `image` value. |
| `Resource.FindImageAtImageKey` | cluster/kubernetes/resource/fluxhelmrelease.go:119-146 | At key `image`, the result equals `processImageInfo` on the top-level values, named after `ChartGitPath`. |
| `Resource.TaggedImage` | cluster/kubernetes/resource/fluxhelmrelease.go:191-195 | The string passed to `ParseRef`. With `imageTag` present it is `val:imageTag`, whatever `tag` holds. Else with `tag` present it is `val:tag`. Else it is `val` unchanged. |
| `Resource.ProcessImageString` | cluster/kubernetes/resource/fluxhelmrelease.go:190-202 | Never panics. The result is `ParseRef`'s verdict on exactly `TaggedImage`, with a parse failure reported as `ParseErr`. |
| `Resource.ImageTagShadowsTag` | cluster/kubernetes/resource/fluxhelmrelease.go:191-194 | When `imageTag` is present, changing or removing `tag` does not change the result. |
| `Resource.ImageStringReadsOnlyTagKeys` | cluster/kubernetes/resource/fluxhelmrelease.go:190-196 | Two maps that agree on the `imageTag` and `tag` entries give the same result. |
| `Resource.TagRenderingReachesParseRef` | cluster/kubernetes/resource/fluxhelmrelease.go:191-196 | Two values of the fallback tag key in use that `%s` renders differently give `ParseRef` different strings. |
| `Resource.ImageStringAppendsToTaggedImage` | cluster/kubernetes/resource/fluxhelmrelease.go:191-196 | `nginx:1.14` with fallback `tag` `2.0` is parsed as `nginx:1.14:2.0`. The existing tag is not checked for. |
| `Resource.ProcessImageMap` | cluster/kubernetes/resource/fluxhelmrelease.go:204-239 | Never panics. No `repository` gives `ErrMalformedImageID`. `repository` alone is parsed as is. `repository` and `tag` are parsed as `repo:tag`. `registry` and `repository` are parsed as `registry/repo`. All three give `createImageRef(registry, repo, tag)` directly. |
| `Resource.ImageMapReadsOnlyItsKeys` | cluster/kubernetes/resource/fluxhelmrelease.go:208-214 | Two maps that agree on `registry`, `repository` and `tag` give the same result. |
| `Resource.ImageMapWithoutParse` | cluster/kubernetes/resource/fluxhelmrelease.go:204-239 | Without `repository`, or with both `registry` and `tag`, the result is the same for every `ParseRef`. So `ParseRef` is not consulted. |
| `Resource.CreateImageRef` | cluster/kubernetes/resource/fluxhelmrelease.go:276-284 | The reference's domain, image and tag are exactly the three arguments. |
| `Resource.ProcessMaybeImageMap` | cluster/kubernetes/resource/fluxhelmrelease.go:242-274 | Never panics. The result is `(nil, nil)` exactly when `image` is missing or of an unsupported type. A non-nil reference, or an error, is what `processImageInfo` gives for the same entry. |
| `Resource.NestedWithoutNamePanics` | cluster/kubernetes/resource/fluxhelmrelease.go:173-177 | `{controller: {image: {repository, tag}}}` with no `name` makes the nested search panic. |
| `Resource.NestedWithNameYieldsNothing` | cluster/kubernetes/resource/fluxhelmrelease.go:173-183 | The same declaration with a `name` resolves to container name `""` and the parsed reference, and the nested search returns an empty slice. |
| `V1beta1.RefOrDefault` | integrations/apis/flux.weave.works/v1beta1/types.go:46-54 | An empty `Ref` gives `"master"`. A non-empty `Ref` is returned unchanged. The result is never empty. |
| `V1beta1.RefOrDefaultIdempotent` | integrations/apis/flux.weave.works/v1beta1/types.go:49-54 | Defaulting an already defaulted ref changes nothing. |
| `V1beta1.RefOrDefaultReadsOnlyRef` | integrations/apis/flux.weave.works/v1beta1/types.go:49-54 | Two sources with the same `Ref` give the same result, whatever their URL and path. |
| `V1beta1.GetTimeout` | integrations/apis/flux.weave.works/v1beta1/types.go:83-89 | A nil `Timeout` gives 300. A non-nil one gives the pointed-to value. |
| `V1beta1.GetTimeoutReadsOnlyTimeout` | integrations/apis/flux.weave.works/v1beta1/types.go:84-89 | Two releases with the same `Spec.Timeout` get the same timeout, whatever else they hold. |

## Left out

- `image.ParseRef` and the reference grammar: the `image` package is not part of this model. `ParseRef` is an uninterpreted parameter, and the properties state the exact string it receives.
- `fmt`'s `%s` rendering of a non-string fallback tag value (lines 192 and 194): the text it produces (such as `%!s(float64=1.14)`) is not modelled. It is the uninterpreted parameter `Env.format`, applied to the whole value.
- The order of Go map iteration: it is a parameter. No output order is claimed, and which failure the nested loop reports can depend on that order.
- The `// log ?` placeholder in `Containers()` does nothing and is not modelled.
- `FHRTryUpdate` and `FHRUnmarshalKind` are stubs that return nil or a zero value. The commented-out controller functions are not code.
- `CronJob`, `StatefulSet` and `DaemonSet` `Containers()`: each only delegates to `PodTemplate.Containers()`, which is not part of this model.
- `HelmRelease.ResourceID`: a call into `flux.MakeResourceID`, which is not part of this model.
- `HelmValues.DeepCopyInto`: a YAML marshal/unmarshal round trip through a foreign library.
- The Kubernetes type and object metadata, the release status conditions, value-file secrets and the chart pull secret: inert data that no modelled operation reads.
- `BaseObject` in `FluxHelmRelease`: the resolver never reads it. Of the `v1alpha2` release spec, only `ChartGitPath` and `Values` are modelled, because the resolver reads only those.
