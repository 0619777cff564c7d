/**
 * The particle that sits on the nominal orbit of a bunch or map. It owns the
 * reference momentum p0 (GeV/c), which must stay strictly positive, the
 * reference time ct0 (m), and the species it is bound to.
 */
module ReferenceParticles {
  import opened Wrappers
  import opened ParticleSpecies

  class ReferenceParticle {
    var p0: real
    var ct0: real
    var species: ParticleInfo

    ghost predicate Valid()
      reads this
    {
      p0 > 0.0
    }

    /**
     * The species comes from the sign of q unless an explicit species is
     * given, which then overrides q.
     */
    constructor (p: real, q: real := 1.0, ptype: Option<ParticleInfo> := None)
      requires p > 0.0
      ensures Valid()
      ensures p0 == p && ct0 == 0.0
      ensures species == if ptype.Some? then ptype.value else DefaultFor(q)
    {
      p0 := p;
      ct0 := 0.0;
      species := DefaultFor(q);
      if ptype.Some? {
        species := ptype.value;
      }
    }

    function GetReferenceMomentum(): (p: real)
      reads this
      requires Valid()
      ensures p > 0.0
    {
      p0
    }

    function GetReferenceTime(): real
      reads this
    {
      ct0
    }

    /** +1, -1 or 0 according to the sign (not the size) of the species' charge. */
    function GetChargeSign(): (s: real)
      reads this
      ensures s == 1.0 <==> species.charge > 0.0
      ensures s == -1.0 <==> species.charge < 0.0
      ensures s == 0.0 <==> species.charge == 0.0
    {
      ChargeSign(species)
    }

    /** The bound species' charge: its sign is the one GetChargeSign reports. */
    function GetParticleCharge(): (q: real)
      reads this
      ensures q > 0.0 <==> GetChargeSign() == 1.0
      ensures q < 0.0 <==> GetChargeSign() == -1.0
    {
      species.charge
    }

    function GetParticleMass(): real
      reads this
    {
      species.mass
    }

    /** The bound species' mass in MeV, as recorded in its ParticleInfo. */
    function GetParticleMassMeV(): (m: real)
      reads this
    {
      species.massMeV
    }

    method SetReferenceMomentum(p: real)
      requires p > 0.0
      modifies this`p0
      ensures Valid() && GetReferenceMomentum() == p
    {
      p0 := p;
    }

    method IncrReferenceMomentum(dp: real) returns (p: real)
      requires p0 + dp > 0.0
      modifies this`p0
      ensures Valid()
      ensures p0 == old(p0) + dp && p == p0
    {
      p0 := p0 + dp;
      p := p0;
    }

    method SetReferenceTime(ct: real)
      modifies this`ct0
      ensures ct0 == ct
    {
      ct0 := ct;
    }

    method IncrReferenceTime(dct: real) returns (ct: real)
      modifies this`ct0
      ensures ct0 == old(ct0) + dct && ct == ct0
    {
      ct0 := ct0 + dct;
      ct := ct0;
    }

    /** Binds one of the three massless default species, by the sign of q. */
    method SetChargeSign(q: real)
      modifies this`species
      ensures species == DefaultFor(q)
      ensures GetChargeSign() == if q > 0.0 then 1.0 else if q < 0.0 then -1.0 else 0.0
    {
      if q > 0.0 {
        species := DefaultParticle;
      } else if q < 0.0 {
        species := DefaultParticleNegative;
      } else {
        species := DefaultParticleNeutral;
      }
    }
  }
}
