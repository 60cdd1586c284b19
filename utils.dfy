/**
 * Integer helpers and string conversion (gadm-api/utils/utils.go; the copy in
 * gadm-api/main/utils.go, `clamp`, `min`, `max`, `arrayToStrings`, is
 * identical and modelled by the same members).
 */
module Utils {

  /** `Clamp`: `lo` when below it, else `hi` when above it, else the value itself. */
  function Clamp(value: int, lo: int, hi: int): (r: int)
    ensures value < lo ==> r == lo
    ensures lo <= hi ==> lo <= r <= hi
    ensures lo <= value <= hi ==> r == value
    ensures lo <= value && hi < value ==> r == hi
  {
    if value < lo then lo
    else if value > hi then hi
    else value
  }

  /** With a proper range, clamping twice is clamping once. */
  lemma ClampIdempotent(value: int, lo: int, hi: int)
    requires lo <= hi
    ensures Clamp(Clamp(value, lo, hi), lo, hi) == Clamp(value, lo, hi)
  {
  }

  /** With an empty range the lower bound wins for every value below it. */
  lemma ClampLowerBoundFirst(value: int, lo: int, hi: int)
    requires hi < lo && value < lo
    ensures Clamp(value, lo, hi) == lo && Clamp(value, lo, hi) > hi
  {
  }

  function Min(a: int, b: int): (r: int)
    ensures r == a || r == b
    ensures r <= a && r <= b
  {
    if a < b then a else b
  }

  function Max(a: int, b: int): (r: int)
    ensures r == a || r == b
    ensures r >= a && r >= b
  {
    if a > b then a else b
  }

  /**
   * An argument of `ArrayToStrings`: a string, a nil interface, or a value of
   * another dynamic type with its Go type name and printed value.
   */
  datatype Arg = Str(s: string) | Nil | Other(typeName: string, text: string)

  /** `fmt.Sprintf("%s", item)`; a wrong-kind value prints as %!s(type=value). */
  function SprintS(item: Arg): string
  {
    match item
    case Str(s) => s
    case Nil => "%!s(<nil>)"
    case Other(t, x) => "%!s(" + t + "=" + x + ")"
  }

  /** `ArrayToStrings`: every argument printed with %s, in order; strings come out unchanged. */
  method ArrayToStrings(args: seq<Arg>) returns (result: seq<string>)
    ensures |result| == |args|
    ensures forall i :: 0 <= i < |args| ==> result[i] == SprintS(args[i])
    ensures forall i :: 0 <= i < |args| && args[i].Str? ==> result[i] == args[i].s
  {
    result := [];
    for i := 0 to |args|
      invariant |result| == i
      invariant forall j :: 0 <= j < i ==> result[j] == SprintS(args[j])
    {
      result := result + [SprintS(args[i])];
    }
  }
}
