/** Loosely typed records: the dictionaries that flow from the fetcher through
    the sentiment labeller into the store. */
module Records {

  datatype Option<+T> = None | Some(value: T)

  /** The kinds of value a record field holds. A Python `int` or `float` is a `Num`. */
  datatype Value =
    | Str(s: string)
    | Num(x: real)
    | StrList(items: seq<string>)
    | Dict(fields: map<string, Value>)

  /** A record is a dictionary from field names to values. */
  type Record = map<string, Value>

  /** True iff `r` has a string field named `k`. */
  predicate HasStr(r: Record, k: string) {
    k in r && r[k].Str?
  }
}
