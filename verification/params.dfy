/**
 * Request parameters as the controllers see them: a scalar string, or a
 * parameter that may arrive either as one string or as an array.
 */
module RequestParams {
  import opened Strings

  /** A parameter that may be missing, a single value, or an array of values. */
  datatype ListParam = Absent | Single(value: string) | Many(values: seq<string>)

  /** `present?`: a string that is not blank, or a non-empty array. */
  predicate ListPresent(p: ListParam)
  {
    match p
    case Absent => false
    case Single(v) => Present(v)
    case Many(vs) => vs != []
  }

  /** `param.is_a?(Array) ? param : [param]` */
  function AsList(p: ListParam): (r: seq<string>)
    ensures p.Single? ==> r == [p.value]
    ensures p.Many? ==> r == p.values
  {
    match p
    case Absent => []
    case Single(v) => [v]
    case Many(vs) => vs
  }

  /** The SQL array overlap `a && b`: some element belongs to both. */
  predicate Overlaps(a: seq<string>, b: seq<string>)
  {
    exists x :: x in a && x in b
  }
}
