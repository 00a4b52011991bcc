/** The image resolver of a `FluxHelmRelease`: it walks the release's Helm values
    and produces the container/image pairs the release declares. The model follows
    cluster/kubernetes/resource/fluxhelmrelease.go as written, defects included. */
module Resource {
  import opened Go
  import opened Image

  /** The Go dynamic types a value of a decoded `map[string]interface{}` may have.
      `VOther` stands for one value of any other dynamic type (a number, a boolean, a
      list, a nil interface, ...); `id` tells such values apart without saying what
      they are, so that `%s` may render different ones differently. */
  datatype Value =
    | VStr(s: string)
    | VStrMap(strs: map<string, string>)
    | VAnyMap(entries: map<string, Value>)
    | VOther(id: nat)

  /** How a call ends: a result, an error return, or a run-time panic. */
  datatype Outcome<+T> = Ok(value: T) | Err(error: Error) | Panic

  /** `resource.Container`. */
  datatype Container = Container(name: string, image: Ref)

  /** The two fields of the release spec the resolver reads. */
  datatype FluxHelmReleaseSpec = FluxHelmReleaseSpec(chartGitPath: string, values: map<string, Value>)

  /** `FluxHelmRelease`; its embedded object metadata is not read by the resolver. */
  datatype FluxHelmRelease = FluxHelmRelease(spec: FluxHelmReleaseSpec)

  /** The code the resolver calls but this model does not see: `image.ParseRef`, and
      `fmt`'s `%s` rendering of a value that is not a string (which sees the whole
      value, including the identity of a `VOther`). */
  datatype Env = Env(parseRef: string -> ParseResult, format: Value -> string)

  /** The values `findImage` and `processMaybeImageMap` accept as an image declaration. */
  predicate IsImageValue(v: Value) {
    v.VStr? || v.VStrMap?
  }

  /** `%s` applied to an `interface{}` value. */
  function Sprint(env: Env, v: Value): string {
    match v
    case VStr(s) => s
    case _ => env.format(v)
  }

  /** The `ref, err := image.ParseRef(...); if err != nil { ... }` pattern. */
  function FromParse(p: ParseResult): (r: Outcome<Ref>)
    ensures !r.Panic?
    ensures r.Ok? <==> p.Parsed?
  {
    match p
    case Parsed(ref) => Ok(ref)
    case Unparsable(reason) => Err(ParseErr(reason))
  }

  /** Pairs a successful reference with a container name; errors pass through. */
  function WithName(name: string, r: Outcome<Ref>): (c: Outcome<Container>)
    ensures c.Ok? <==> r.Ok?
    ensures c.Ok? ==> c.value == Container(name, r.value)
    ensures c.Err? <==> r.Err?
    ensures c.Err? ==> c.error == r.error
  {
    match r
    case Ok(ref) => Ok(Container(name, ref))
    case Err(e) => Err(e)
    case Panic => Panic
  }

  /** The string `processImageString` hands to `ParseRef`: `val` suffixed with the
      first fallback tag key present, `imageTag` before `tag`. */
  function TaggedImage(env: Env, values: map<string, Value>, val: string): (s: string)
    ensures "imageTag" in values ==> s == val + ":" + Sprint(env, values["imageTag"])
    ensures "imageTag" !in values && "tag" in values ==> s == val + ":" + Sprint(env, values["tag"])
    ensures "imageTag" !in values && "tag" !in values ==> s == val
  {
    if "imageTag" in values then val + ":" + Sprint(env, values["imageTag"])
    else if "tag" in values then val + ":" + Sprint(env, values["tag"])
    else val
  }

  /** `processImageString`: the scalar form of an image declaration. */
  function ProcessImageString(env: Env, values: map<string, Value>, val: string): (r: Outcome<Ref>)
    ensures !r.Panic?
    ensures r == FromParse(env.parseRef(TaggedImage(env, values, val)))
  {
    var tagged := TaggedImage(env, values, val);
    FromParse(env.parseRef(tagged))
  }

  /** `createImageRef`: a reference built field for field, with no parsing. */
  function CreateImageRef(domain: string, imageName: string, tag: string): (r: Ref)
    ensures r.name.domain == domain && r.name.image == imageName && r.tag == tag
  {
    Ref(Name(domain, imageName), tag)
  }

  /** `processImageMap`: the `registry`/`repository`/`tag` form of an image declaration. */
  function ProcessImageMap(env: Env, val: map<string, string>): (r: Outcome<Ref>)
    ensures !r.Panic?
    ensures "repository" !in val ==> r == Err(ErrMalformedImageID)
    ensures "repository" in val && "registry" !in val && "tag" !in val ==>
      r == FromParse(env.parseRef(val["repository"]))
    ensures "repository" in val && "registry" !in val && "tag" in val ==>
      r == FromParse(env.parseRef(val["repository"] + ":" + val["tag"]))
    ensures "repository" in val && "registry" in val && "tag" !in val ==>
      r == FromParse(env.parseRef(val["registry"] + "/" + val["repository"]))
    ensures "repository" in val && "registry" in val && "tag" in val ==>
      r == Ok(CreateImageRef(val["registry"], val["repository"], val["tag"]))
  {
    if "repository" !in val then Err(ErrMalformedImageID)
    else
      var i := val["repository"];
      if "registry" !in val then
        var i := if "tag" in val then i + ":" + val["tag"] else i;
        FromParse(env.parseRef(i))
      else if "tag" !in val then
        FromParse(env.parseRef(val["registry"] + "/" + i))
      else
        Ok(Ref(Name(val["registry"], i), val["tag"]))
  }

  /** `processImageInfo`: dispatch on the dynamic type of a top-level `image` value. */
  function ProcessImageInfo(env: Env, values: map<string, Value>, value: Value): (r: Outcome<Ref>)
    ensures !r.Panic?
    ensures value.VStr? ==> r == ProcessImageString(env, values, value.s)
    ensures value.VStrMap? ==> r == ProcessImageMap(env, value.strs)
    ensures !IsImageValue(value) ==> r == Err(ErrMalformedImageID)
  {
    match value
    case VStr(val) => ProcessImageString(env, values, val)
    case VStrMap(val) => ProcessImageMap(env, val)
    case _ => Err(ErrMalformedImageID)
  }

  /** `processMaybeImageMap`: the `image` entry of a nested map, if it has one of the
      accepted types; `Ok(Nil)` stands for the `nil, nil` return. */
  function ProcessMaybeImageMap(env: Env, value: map<string, Value>): (r: Outcome<Pointer<Ref>>)
    ensures !r.Panic?
    ensures r == Ok(Nil) <==> "image" !in value || !IsImageValue(value["image"])
    ensures r.Ok? && r.value.Addr? ==> ProcessImageInfo(env, value, value["image"]) == Ok(r.value.target)
    ensures r.Err? ==> ProcessImageInfo(env, value, value["image"]) == Err(r.error)
  {
    if "image" !in value then Ok(Nil)
    else
      match value["image"]
      case VStr(val) =>
        (match ProcessImageString(env, value, val)
         case Ok(ref) => Ok(Addr(ref))
         case Err(e) => Err(e)
         case Panic => Panic)
      case VStrMap(val) =>
        (match ProcessImageMap(env, val)
         case Ok(ref) => Ok(Addr(ref))
         case Err(e) => Err(e)
         case Panic => Panic)
      case _ => Ok(Nil)
  }

  /** `findImage`: what one top-level key contributes in nested mode. At key `image`
      it interprets the value like `processImageInfo`; at any other key a nested map
      goes through the inverted `name` check and `processMaybeImageMap`, whose nil
      result is then dereferenced. */
  function FindImage(env: Env, spec: FluxHelmReleaseSpec, param: string, value: Value): (r: Outcome<Container>)
    ensures param == "image" ==> !r.Panic?
    ensures param != "image" && r.Ok? ==> r.value.name == ""
    ensures param != "image" && !value.VAnyMap? ==> r == Ok(Container("", ZeroRef))
    ensures param != "image" && value.VAnyMap? && "name" !in value.entries ==> r == Panic
    ensures param != "image" && value.VAnyMap? && ("image" !in value.entries || !IsImageValue(value.entries["image"]))
      ==> r == Panic
    ensures param != "image" && value.VAnyMap? && "name" in value.entries &&
            "image" in value.entries && IsImageValue(value.entries["image"]) ==>
      r == WithName("", ProcessImageInfo(env, value.entries, value.entries["image"]))
  {
    if param == "image" then
      match value
      case VStr(val) => WithName(spec.chartGitPath, ProcessImageString(env, spec.values, val))
      case VStrMap(val) => WithName(spec.chartGitPath, ProcessImageMap(env, val))
      case _ => Err(ErrMalformedImageID)
    else
      match value
      case VAnyMap(val) =>
        // The string assertion on the `name` entry runs only when `name` is missing,
        // so it runs on a nil interface and panics; when `name` is present the
        // container name keeps its zero value, the empty string.
        if "name" !in val then Panic
        else
          var cName := "";
          (match ProcessMaybeImageMap(env, val)
           case Err(e) => Err(e)
           case Ok(Nil) => Panic
           case Ok(Addr(ref)) => Ok(Container(cName, ref))
           case Panic => Panic)
      case _ => Ok(Container("", ZeroRef))
  }

  /** The Go `range` loop over a map visits every key exactly once, in an order the
      language leaves unspecified; `order` is that visiting order. */
  predicate IsIterationOrder(order: seq<string>, values: map<string, Value>) {
    && (forall i, j | 0 <= i < j < |order| :: order[i] != order[j])
    && (forall k | k in order :: k in values)
    && (forall k | k in values :: k in order)
  }

  /** A failed `findImage` outcome as the outcome of the whole loop. */
  function Abort(r: Outcome<Container>): Outcome<Slice<Container>>
    requires !r.Ok?
  {
    match r
    case Err(e) => Err(e)
    case Panic => Panic
  }

  /** What one visited key contributes to the loop's accumulator: line 76 appends the
      container only when its name is non-empty. */
  function Contribution(found: Outcome<Container>): seq<Container> {
    if found.Ok? && found.value.name != "" then [found.value] else []
  }

  /** The containers the nested-mode loop has appended after visiting `keys` in that
      order without aborting. */
  function Appended(env: Env, spec: FluxHelmReleaseSpec, keys: seq<string>): seq<Container>
    requires forall k | k in keys :: k in spec.values
    decreases |keys|
  {
    if keys == [] then []
    else
      var last := keys[|keys| - 1];
      Appended(env, spec, keys[..|keys| - 1]) + Contribution(FindImage(env, spec, last, spec.values[last]))
  }

  /** What the nested-mode loop of `createContainers` returns when it visits `keys`
      in that order: the first failing `findImage` call ends it, and otherwise it
      returns a fresh empty slice, whatever was appended on the way. */
  function NestedSearch(env: Env, spec: FluxHelmReleaseSpec, keys: seq<string>): (r: Outcome<Slice<Container>>)
    requires forall k | k in keys :: k in spec.values
    ensures r.Ok? ==> r.value == Slice([])
    decreases |keys|
  {
    if keys == [] then Ok(Slice([]))
    else
      var found := FindImage(env, spec, keys[0], spec.values[keys[0]]);
      if found.Ok? then NestedSearch(env, spec, keys[1..]) else Abort(found)
  }

  /** `createContainers`. `order` is the order in which the `range` loop happens to
      visit the keys of the values map. */
  method CreateContainers(env: Env, fhr: FluxHelmRelease, order: seq<string>)
    returns (r: Outcome<Slice<Container>>)
    requires IsIterationOrder(order, fhr.spec.values)
    ensures |fhr.spec.values| == 0 ==> r == Ok(NilSlice)
    ensures |fhr.spec.values| != 0 && "image" in fhr.spec.values ==>
      var info := ProcessImageInfo(env, fhr.spec.values, fhr.spec.values["image"]);
      (info.Ok? ==> r == Ok(Slice([Container(fhr.spec.chartGitPath, info.value)]))) &&
      (info.Err? ==> r == Err(info.error))
    ensures |fhr.spec.values| != 0 && "image" !in fhr.spec.values ==>
      r == NestedSearch(env, fhr.spec, order)
    ensures r.Ok? ==> r.value.Len() <= 1
    ensures r.Panic? ==> "image" !in fhr.spec.values
  {
    var spec := fhr.spec;
    var values := spec.values;
    if |values| == 0 {
      return Ok(NilSlice);
    }
    var containers: seq<Container> := [];

    if "image" in values {
      var imageRef := ProcessImageInfo(env, values, values["image"]);
      if imageRef.Err? {
        return Err(imageRef.error);
      }
      containers := containers + [Container(spec.chartGitPath, imageRef.value)];
      assert containers == [Container(spec.chartGitPath, imageRef.value)];
      return Ok(Slice(containers));
    }

    var i := 0;
    while i < |order|
      invariant 0 <= i <= |order|
      invariant containers == Appended(env, spec, order[..i])
      invariant NestedSearch(env, spec, order) == NestedSearch(env, spec, order[i..])
    {
      var param := order[i];
      var found := FindImage(env, spec, param, values[param]);
      match found
      case Panic =>
        return Panic;
      case Err(e) =>
        return Err(e);
      case Ok(c) =>
        if c.name != "" {
          containers := containers + [c];
        }
      assert order[i..][1..] == order[i + 1..];
      assert order[..i + 1][..i] == order[..i];
      i := i + 1;
    }
    return Ok(Slice([]));
  }

  /** `FluxHelmRelease.Containers`: any error becomes the nil slice it came with;
      a panic is not recovered. */
  method Containers(env: Env, fhr: FluxHelmRelease, order: seq<string>)
    returns (r: Outcome<Slice<Container>>)
    requires IsIterationOrder(order, fhr.spec.values)
    ensures !r.Err?
    ensures |fhr.spec.values| == 0 ==> r == Ok(NilSlice)
    ensures |fhr.spec.values| != 0 && "image" in fhr.spec.values ==>
      var info := ProcessImageInfo(env, fhr.spec.values, fhr.spec.values["image"]);
      (info.Ok? ==> r == Ok(Slice([Container(fhr.spec.chartGitPath, info.value)]))) &&
      (info.Err? ==> r == Ok(NilSlice))
    ensures |fhr.spec.values| != 0 && "image" !in fhr.spec.values ==>
      var nested := NestedSearch(env, fhr.spec, order);
      (nested.Ok? ==> r == Ok(Slice([]))) &&
      (nested.Err? ==> r == Ok(NilSlice)) &&
      (nested.Panic? ==> r == Panic)
  {
    var containers := CreateContainers(env, fhr, order);
    if containers.Err? {
      // the error is dropped; the slice returned with it is nil
      return Ok(NilSlice);
    }
    return containers;
  }

  // ---------------------------------------------------------------------------
  // Properties of the nested-mode search

  /** The nested search succeeds exactly when every key's `findImage` call does. */
  lemma {:induction false} NestedSearchOkIff(env: Env, spec: FluxHelmReleaseSpec, keys: seq<string>)
    requires forall k | k in keys :: k in spec.values
    ensures NestedSearch(env, spec, keys).Ok? <==>
      forall i | 0 <= i < |keys| :: FindImage(env, spec, keys[i], spec.values[keys[i]]).Ok?
  {
    if keys != [] {
      NestedSearchOkIff(env, spec, keys[1..]);
      assert forall i | 1 <= i < |keys| :: keys[i] == keys[1..][i - 1];
    }
  }

  /** The first failing key decides the outcome: its error, or its panic. */
  lemma {:induction false} NestedSearchFirstFailure(env: Env, spec: FluxHelmReleaseSpec, keys: seq<string>, j: nat)
    requires forall k | k in keys :: k in spec.values
    requires j < |keys|
    requires forall i | 0 <= i < j :: FindImage(env, spec, keys[i], spec.values[keys[i]]).Ok?
    requires !FindImage(env, spec, keys[j], spec.values[keys[j]]).Ok?
    ensures NestedSearch(env, spec, keys) == Abort(FindImage(env, spec, keys[j], spec.values[keys[j]]))
  {
    if j > 0 {
      assert FindImage(env, spec, keys[0], spec.values[keys[0]]).Ok?;
      assert forall i | 0 <= i < j - 1 :: keys[1..][i] == keys[i + 1];
      NestedSearchFirstFailure(env, spec, keys[1..], j - 1);
    }
  }

  /** A failed nested search reports what some key's `findImage` call reported. */
  lemma {:induction false} NestedSearchFailureHasSource(env: Env, spec: FluxHelmReleaseSpec, keys: seq<string>)
    requires forall k | k in keys :: k in spec.values
    ensures NestedSearch(env, spec, keys).Err? ==>
      exists k | k in keys :: FindImage(env, spec, k, spec.values[k]) == Err(NestedSearch(env, spec, keys).error)
    ensures NestedSearch(env, spec, keys).Panic? ==>
      exists k | k in keys :: FindImage(env, spec, k, spec.values[k]).Panic?
  {
    if keys != [] {
      var found := FindImage(env, spec, keys[0], spec.values[keys[0]]);
      if found.Ok? {
        NestedSearchFailureHasSource(env, spec, keys[1..]);
        assert forall k | k in keys[1..] :: k in keys;
      } else {
        assert keys[0] in keys;
      }
    }
  }

  /** Whether the nested search succeeds does not depend on the iteration order, and
      when it succeeds the result is the same for every order. (Which failure is
      reported can depend on the order.) */
  lemma NestedSearchOrderIrrelevantForSuccess(env: Env, spec: FluxHelmReleaseSpec, o1: seq<string>, o2: seq<string>)
    requires IsIterationOrder(o1, spec.values) && IsIterationOrder(o2, spec.values)
    ensures NestedSearch(env, spec, o1).Ok? <==> NestedSearch(env, spec, o2).Ok?
    ensures NestedSearch(env, spec, o1).Ok? ==> NestedSearch(env, spec, o1) == NestedSearch(env, spec, o2)
  {
    NestedSearchOkIff(env, spec, o1);
    NestedSearchOkIff(env, spec, o2);
    if NestedSearch(env, spec, o1).Ok? {
      forall i | 0 <= i < |o2| ensures FindImage(env, spec, o2[i], spec.values[o2[i]]).Ok? {
        var k := o2[i];
        assert k in o1;
        var j :| 0 <= j < |o1| && o1[j] == k;
      }
    }
    if NestedSearch(env, spec, o2).Ok? {
      forall i | 0 <= i < |o1| ensures FindImage(env, spec, o1[i], spec.values[o1[i]]).Ok? {
        var k := o1[i];
        assert k in o2;
        var j :| 0 <= j < |o2| && o2[j] == k;
      }
    }
  }

  /** The nested search is one of two things: every key succeeds and the result is a
      fresh empty slice, or some key fails after all keys before it succeeded and the
      result is that key's error or panic. */
  lemma {:induction false} NestedSearchCharacterised(env: Env, spec: FluxHelmReleaseSpec, keys: seq<string>)
    requires forall k | k in keys :: k in spec.values
    ensures NestedSearch(env, spec, keys) == Ok(Slice([])) ||
      exists j | 0 <= j < |keys| ::
        && (forall i | 0 <= i < j :: FindImage(env, spec, keys[i], spec.values[keys[i]]).Ok?)
        && !FindImage(env, spec, keys[j], spec.values[keys[j]]).Ok?
        && NestedSearch(env, spec, keys) == Abort(FindImage(env, spec, keys[j], spec.values[keys[j]]))
  {
    if keys != [] {
      var found := FindImage(env, spec, keys[0], spec.values[keys[0]]);
      if !found.Ok? {
        assert 0 < |keys|;
      } else {
        var rest := keys[1..];
        NestedSearchCharacterised(env, spec, rest);
        if NestedSearch(env, spec, rest) != Ok(Slice([])) {
          var j :| 0 <= j < |rest| &&
            (forall i | 0 <= i < j :: FindImage(env, spec, rest[i], spec.values[rest[i]]).Ok?) &&
            !FindImage(env, spec, rest[j], spec.values[rest[j]]).Ok? &&
            NestedSearch(env, spec, rest) == Abort(FindImage(env, spec, rest[j], spec.values[rest[j]]));
          assert forall i | 1 <= i < j + 1 :: keys[i] == rest[i - 1];
          assert keys[j + 1] == rest[j];
        }
      }
    }
  }

  /** With no top-level `image` key no visited key yields a named container, so the
      loop of `createContainers` never appends anything, in any order. */
  lemma {:induction false} NothingAppended(env: Env, spec: FluxHelmReleaseSpec, keys: seq<string>)
    requires forall k | k in keys :: k in spec.values
    requires "image" !in spec.values
    ensures Appended(env, spec, keys) == []
  {
    if keys != [] {
      NothingAppended(env, spec, keys[..|keys| - 1]);
    }
  }

  // ---------------------------------------------------------------------------
  // Properties relating the interpreters and builders

  /** At key `image`, `findImage` interprets the value exactly as `processImageInfo`
      does against the top-level values, naming the result after the chart path. */
  lemma FindImageAtImageKey(env: Env, spec: FluxHelmReleaseSpec, value: Value)
    ensures FindImage(env, spec, "image", value) ==
      WithName(spec.chartGitPath, ProcessImageInfo(env, spec.values, value))
  {
  }

  /** `imageTag` is looked up before `tag`: once `imageTag` is present, the `tag`
      entry, whether present or not, does not affect the result. */
  lemma ImageTagShadowsTag(env: Env, values: map<string, Value>, val: string, other: Value)
    requires "imageTag" in values
    ensures ProcessImageString(env, values["tag" := other], val) == ProcessImageString(env, values, val)
    ensures ProcessImageString(env, values - {"tag"}, val) == ProcessImageString(env, values, val)
  {
  }

  /** `processImageString` reads only the `imageTag` and `tag` entries of its map. */
  lemma ImageStringReadsOnlyTagKeys(env: Env, v1: map<string, Value>, v2: map<string, Value>, val: string)
    requires ("imageTag" in v1 <==> "imageTag" in v2) && ("tag" in v1 <==> "tag" in v2)
    requires "imageTag" in v1 ==> v1["imageTag"] == v2["imageTag"]
    requires "tag" in v1 ==> v1["tag"] == v2["tag"]
    ensures ProcessImageString(env, v1, val) == ProcessImageString(env, v2, val)
  {
  }

  /** The rendered fallback tag reaches `ParseRef` intact: two tag values that `%s`
      renders differently give `ParseRef` different strings. */
  lemma {:induction false} TagRenderingReachesParseRef(env: Env, values: map<string, Value>, key: string, v1: Value, v2: Value, val: string)
    requires key == "imageTag" || (key == "tag" && "imageTag" !in values)
    requires Sprint(env, v1) != Sprint(env, v2)
    ensures TaggedImage(env, values[key := v1], val) != TaggedImage(env, values[key := v2], val)
  {
    var s1, s2 := TaggedImage(env, values[key := v1], val), TaggedImage(env, values[key := v2], val);
    assert s1 == val + ":" + Sprint(env, v1);
    assert s2 == val + ":" + Sprint(env, v2);
    assert s1[|val| + 1..] == Sprint(env, v1);
    assert s2[|val| + 1..] == Sprint(env, v2);
  }

  /** A fallback tag is appended even when the scalar already carries one. */
  lemma ImageStringAppendsToTaggedImage(env: Env)
    ensures ProcessImageString(env, map["tag" := VStr("2.0")], "nginx:1.14") ==
      FromParse(env.parseRef("nginx:1.14:2.0"))
  {
    assert "nginx:1.14" + ":" + "2.0" == "nginx:1.14:2.0";
  }

  /** `processImageMap` reads only the `registry`, `repository` and `tag` entries. */
  lemma ImageMapReadsOnlyItsKeys(env: Env, m1: map<string, string>, m2: map<string, string>)
    requires forall k | k in {"registry", "repository", "tag"} :: (k in m1 <==> k in m2)
    requires forall k | k in {"registry", "repository", "tag"} && k in m1 :: m1[k] == m2[k]
    ensures ProcessImageMap(env, m1) == ProcessImageMap(env, m2)
  {
  }

  /** Without a `repository`, or with both `registry` and `tag`, `processImageMap` does
      not consult `ParseRef`: its result is the same whatever `ParseRef` does. */
  lemma ImageMapWithoutParse(e1: Env, e2: Env, m: map<string, string>)
    requires "repository" !in m || ("registry" in m && "tag" in m)
    ensures ProcessImageMap(e1, m) == ProcessImageMap(e2, m)
  {
  }

  // ---------------------------------------------------------------------------
  // Worked cases

  /** A nested image declaration without a `name` key panics in `findImage`. */
  lemma NestedWithoutNamePanics(env: Env, path: string)
    ensures var spec := FluxHelmReleaseSpec(path, map["controller" :=
              VAnyMap(map["image" := VStrMap(map["repository" := "quay.io/foo/bar", "tag" := "0.12.0"])])]);
      NestedSearch(env, spec, ["controller"]) == Panic
  {
  }

  /** With a `name` key, a resolvable nested declaration succeeds, yet the release
      still resolves to no container. */
  lemma NestedWithNameYieldsNothing(env: Env, path: string, ref: Ref)
    requires env.parseRef("quay.io/foo/bar:0.12.0") == Parsed(ref)
    ensures var spec := FluxHelmReleaseSpec(path, map["controller" :=
              VAnyMap(map["name" := VStr("ctl"),
                          "image" := VStrMap(map["repository" := "quay.io/foo/bar", "tag" := "0.12.0"])])]);
      FindImage(env, spec, "controller", spec.values["controller"]) == Ok(Container("", ref)) &&
      NestedSearch(env, spec, ["controller"]) == Ok(Slice([]))
  {
    assert "quay.io/foo/bar" + ":" + "0.12.0" == "quay.io/foo/bar:0.12.0";
  }
}
