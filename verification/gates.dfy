/**
 * A fail-fast validation pipeline: an ordered list of checks, each of which
 * either passes or rejects the request with its own status and message. The
 * first check that does not pass decides the response.
 */
module Gates {
  import opened Optional

  datatype Gate = Gate(passes: bool, status: nat, message: string)

  /** Position of the first gate that rejects, if any. */
  function FirstFailure(gs: seq<Gate>): (r: Option<nat>)
    ensures r.Some? ==> r.value < |gs| && !gs[r.value].passes
    ensures r.Some? ==> forall j :: 0 <= j < r.value ==> gs[j].passes
    ensures r.None? <==> forall j :: 0 <= j < |gs| ==> gs[j].passes
  {
    if gs == [] then None
    else if !gs[0].passes then Some(0)
    else
      match FirstFailure(gs[1..])
      case None => None
      case Some(k) => Some(k + 1)
  }
}
