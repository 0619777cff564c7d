/**
 * The description of one particle species: its rest mass in kg, the same
 * mass expressed in MeV, and its charge in units of the elementary charge.
 * Values of this type are immutable and shared by every bunch that uses them.
 */
module ParticleSpecies {

  datatype ParticleInfo = ParticleInfo(mass: real, massMeV: real, charge: real)

  /** Ultra-relativistic (massless) reference species, one per charge sign. */
  const DefaultParticle: ParticleInfo := ParticleInfo(0.0, 0.0, 1.0)
  const DefaultParticleNegative: ParticleInfo := ParticleInfo(0.0, 0.0, -1.0)
  const DefaultParticleNeutral: ParticleInfo := ParticleInfo(0.0, 0.0, 0.0)

  /** +1, -1 or 0 according to the sign of the species' charge. */
  function ChargeSign(info: ParticleInfo): (s: real)
    ensures s == 1.0 <==> info.charge > 0.0
    ensures s == -1.0 <==> info.charge < 0.0
    ensures s == 0.0 <==> info.charge == 0.0
  {
    if info.charge > 0.0 then 1.0 else if info.charge < 0.0 then -1.0 else 0.0
  }

  /** The default species whose charge has the sign of q. */
  function DefaultFor(q: real): (info: ParticleInfo)
    ensures info.mass == 0.0 && info.massMeV == 0.0
    ensures ChargeSign(info) == if q > 0.0 then 1.0 else if q < 0.0 then -1.0 else 0.0
  {
    if q > 0.0 then DefaultParticle
    else if q < 0.0 then DefaultParticleNegative
    else DefaultParticleNeutral
  }

  /** The three defaults are massless and carry pairwise distinct charge signs. */
  lemma DefaultsDistinct()
    ensures DefaultParticle.mass == DefaultParticleNegative.mass == DefaultParticleNeutral.mass == 0.0
    ensures ChargeSign(DefaultParticle) == 1.0
    ensures ChargeSign(DefaultParticleNegative) == -1.0
    ensures ChargeSign(DefaultParticleNeutral) == 0.0
  {
  }
}
