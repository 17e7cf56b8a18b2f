/**
 * `Settings.parse_gpu_ids` of server/app/config.py: the `pre=True`
 * validator that turns the raw `gpu_ids` setting into a list or `None`.
 * `json.loads` is a parameter: it gives the decoded value, or `None` where
 * Python raises `JSONDecodeError`.
 */
module Config {
  import opened Wrappers
  import opened Text
  import opened Values

  /** `value in (None, "", [], ())`. */
  predicate IsUnset(value: Value) {
    value == VNone || value == VStr("") || value == VList([]) || value == VTuple([])
  }

  function Strings(xs: seq<string>): (r: seq<Value>)
    ensures |r| == |xs|
    ensures forall i :: 0 <= i < |xs| ==> r[i] == VStr(xs[i])
  {
    if xs == [] then [] else [VStr(xs[0])] + Strings(xs[1..])
  }

  /**
   * `parse_gpu_ids(value)`: unset values become `None`; a string is decoded
   * as JSON when it parses and is otherwise read as a comma list; any other
   * value is kept as it is.
   */
  function ParseGpuIds(value: Value, jsonLoads: string -> Option<Value>): (r: Value)
    ensures IsUnset(value) ==> r == VNone
    ensures !IsUnset(value) && value.VStr? && jsonLoads(value.s).Some? ==> r == jsonLoads(value.s).value
    ensures !IsUnset(value) && value.VStr? && jsonLoads(value.s).None? ==> r == VList(Strings(CommaList(value.s)))
    ensures !IsUnset(value) && !value.VStr? ==> r == value
  {
    if IsUnset(value) then VNone
    else if value.VStr? then
      match jsonLoads(value.s)
      case Some(parsed) => parsed
      case None => VList(Strings(CommaList(value.s)))
    else value
  }

  /**
   * A string that is not JSON becomes a list of non-empty, trimmed,
   * comma-free strings, in the order they appear.
   */
  lemma CommaFallbackIsClean(s: string, jsonLoads: string -> Option<Value>, i: nat)
    requires s != "" && jsonLoads(s).None?
    requires i < |CommaList(s)|
    ensures ParseGpuIds(VStr(s), jsonLoads).VList?
    ensures |ParseGpuIds(VStr(s), jsonLoads).items| == |CommaList(s)|
    ensures var item := ParseGpuIds(VStr(s), jsonLoads).items[i];
      item.VStr? && item.s != "" && IsStripped(item.s) && ',' !in item.s
  {
  }

  /**
   * A blank but non-empty string that is not JSON is not unset: it becomes
   * the empty list, which the pool then replaces by "cpu" instead of running
   * discovery.
   */
  lemma BlankStringIsEmptyList(s: string, jsonLoads: string -> Option<Value>)
    requires s != "" && AllSpace(s) && ',' !in s && jsonLoads(s).None?
    ensures ParseGpuIds(VStr(s), jsonLoads) == VList([])
  {
    CommaListSingle(s);
  }
}
