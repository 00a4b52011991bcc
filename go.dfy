/** Go's nil-able values and fixed-width integers as the two core files use them. */
module Go {

  /** A Go pointer `*T`: either nil or the address of a `T`. */
  datatype Pointer<+T> = Nil | Addr(target: T)

  /** A Go slice `[]T`. A nil slice and an empty non-nil slice are told apart,
      because `createContainers` returns one in some paths and the other elsewhere. */
  datatype Slice<+T> = NilSlice | Slice(elems: seq<T>) {
    /** `len(s)` in Go: zero for a nil slice. */
    function Len(): nat {
      match this
      case NilSlice => 0
      case Slice(elems) => |elems|
    }
  }

  /** Go's `int64`. */
  newtype Int64 = x: int | -0x8000_0000_0000_0000 <= x < 0x8000_0000_0000_0000
}
