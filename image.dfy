/** The parts of the `image` package that the resolver uses. Only the shapes of
    `Name` and `Ref` and the error values are modelled; `image.ParseRef` itself is a
    parameter of the resolver (see `Resource.Env`). */
module Image {

  /** `image.Name`: a registry domain (empty when absent) and an image path. */
  datatype Name = Name(domain: string, image: string)

  /** `image.Ref`: a name and a tag (empty when absent). */
  datatype Ref = Ref(name: Name, tag: string)

  /** `image.Ref{}`, the zero value. */
  const ZeroRef := Ref(Name("", ""), "")

  /** What `image.ParseRef` returns: a reference, or a non-nil error whose
      content this model does not interpret. */
  datatype ParseResult = Parsed(ref: Ref) | Unparsable(reason: string)

  /** The errors the resolver can report: the package's `ErrMalformedImageID`,
      returned by the resolver itself, and any error coming out of `ParseRef`. */
  datatype Error = ErrMalformedImageID | ParseErr(reason: string)
}
