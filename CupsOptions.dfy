/**
 * CUPS option lists (`cups_option_t` arrays) as sequences of name/value
 * pairs, and the lookup `cupsGetOption`. A parsed IEEE 1284 device ID and
 * the system options both arrive in this form.
 */
module CupsOptions {
  import opened Wrappers
  import opened CStrings

  /** One name/value pair, such as MFG:Acme or log-level=debug. */
  datatype Pair = Pair(name: string, value: string)

  /**
   * `cupsGetOption`: the value of the first pair whose name equals `name`
   * ignoring case, or none.
   */
  function GetOption(name: string, pairs: seq<Pair>): (r: Option<string>)
    ensures r.None? <==> forall k :: 0 <= k < |pairs| ==> !EqualIgnoringCase(pairs[k].name, name)
    ensures r.Some? ==> exists k :: 0 <= k < |pairs| && EqualIgnoringCase(pairs[k].name, name) && pairs[k].value == r.value
  {
    if pairs == [] then None
    else if EqualIgnoringCase(pairs[0].name, name) then Some(pairs[0].value)
    else GetOption(name, pairs[1..])
  }
}
