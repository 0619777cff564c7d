/**
 * The parts of a particle bunch that every species shares: the phase-space
 * vector, the caller-owned array of vectors that a bunch consumes, and a
 * record of which base-bunch constructor a species bunch delegated to and
 * with which arguments.
 */
module BunchBase {
  import opened Wrappers

  /** One macro-particle: (x, x', y, y', ct, dp). */
  datatype PSvector = PSvector(x: real, xp: real, y: real, yp: real, ct: real, dp: real)

  /** A caller-owned, growable array of phase-space vectors. */
  class PSvectorArray {
    var vectors: seq<PSvector>

    constructor (vs: seq<PSvector>)
      ensures vectors == vs
    {
      vectors := vs;
    }
  }

  /** Identifies the caller's particle filter; its Apply predicate is not part of this model. */
  datatype FilterHandle = FilterHandle(id: nat)

  /**
   * The base-bunch constructor a species bunch calls, with the arguments it
   * passes: reference momentum and total charge for the array and stream
   * forms, reference momentum and charge per macro-particle for the empty
   * form, particle count and optional filter for the generator form.
   */
  datatype BunchOrigin =
    | FromArray(p0: real, totalCharge: real)
    | FromStream(p0: real, totalCharge: real)
    | Empty(p0: real, macroCharge: real)
    | Generated(count: nat, filter: Option<FilterHandle>)
}
