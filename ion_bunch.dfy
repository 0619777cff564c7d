/**
 * A bunch of ions. Unlike the other species, an ion bunch carries its own
 * per-particle charge (elementary units) and mass (kg), fixed at
 * construction and distinct from the bunch's total or per-macro-particle
 * charge, which goes to the base bunch.
 */
module IonBunches {
  import opened Wrappers
  import opened BunchBase
  import PC = PhysicalConstants

  /** Converts a mass in kg to MeV: c^2 / e gives eV, scaled by eV / MeV. */
  const MassToMeV: real := PC.SpeedOfLight * PC.SpeedOfLight / PC.ElectronCharge * PC.eV / PC.MeV

  lemma MassToMeVPositive()
    ensures MassToMeV > 0.0
  {
  }

  class IonBunch {
    var origin: BunchOrigin
    var particles: seq<PSvector>
    var particleCharge: real
    var particleMass: real

    /** Moves the caller's vectors into the bunch; the array is empty on exit. */
    constructor FromArray(P0: real, Qtot: real, source: PSvectorArray, Qp: real, Mp: real)
      modifies source
      ensures source.vectors == [] && particles == old(source.vectors)
      ensures origin == BunchOrigin.FromArray(P0, Qtot)
      ensures GetParticleCharge() == Qp && GetParticleMass() == Mp
      ensures IsStable() && GetParticleLifetime() == 0.0
    {
      origin := BunchOrigin.FromArray(P0, Qtot);
      particles := source.vectors;
      particleCharge := Qp;
      particleMass := Mp;
      new;
      source.vectors := [];
    }

    /** `read` stands for the vectors the base bunch parses from the stream. */
    constructor FromStream(P0: real, Qtot: real, read: seq<PSvector>, Qp: real, Mp: real)
      ensures particles == read && origin == BunchOrigin.FromStream(P0, Qtot)
      ensures GetParticleCharge() == Qp && GetParticleMass() == Mp
    {
      origin := BunchOrigin.FromStream(P0, Qtot);
      particles := read;
      particleCharge := Qp;
      particleMass := Mp;
    }

    /** An empty bunch; the macro-particle charge Qm, not Qp, goes to the base. */
    constructor Empty(P0: real, Qp: real, Mp: real, Qm: real := 1.0)
      ensures particles == [] && origin == BunchOrigin.Empty(P0, Qm)
      ensures GetParticleCharge() == Qp && GetParticleMass() == Mp
    {
      origin := BunchOrigin.Empty(P0, Qm);
      particles := [];
      particleCharge := Qp;
      particleMass := Mp;
    }

    /** `population` stands for what the base bunch draws from the generator through the filter. */
    constructor Generated(np: nat, population: seq<PSvector>, Qp: real, Mp: real,
                          filter: Option<FilterHandle> := None)
      ensures particles == population && origin == BunchOrigin.Generated(np, filter)
      ensures GetParticleCharge() == Qp && GetParticleMass() == Mp
    {
      origin := BunchOrigin.Generated(np, filter);
      particles := population;
      particleCharge := Qp;
      particleMass := Mp;
    }

    /** The stored ion mass, which the MeV mass converts by a fixed factor. */
    function GetParticleMass(): (m: real)
      reads this
      ensures GetParticleMassMeV() == m * MassToMeV
    {
      particleMass
    }

    /** The stored mass converted to MeV: linear in the mass, with a positive factor. */
    function GetParticleMassMeV(): (m: real)
      reads this
      ensures m == particleMass * MassToMeV
    {
      particleMass / PC.ElectronCharge * PC.SpeedOfLight * PC.SpeedOfLight * PC.eV / PC.MeV
    }

    /** Ions are treated as stable: no lifetime. */
    function GetParticleLifetime(): (t: real)
      reads this
      ensures t == 0.0
    {
      0.0
    }

    function IsStable(): (stable: bool)
      reads this
      ensures stable
    {
      true
    }

    function GetParticleCharge(): real
      reads this
    {
      particleCharge
    }
  }

  /** The MeV mass scales with the stored mass: k times the mass reports k times the MeV mass. */
  lemma MassMeVScales(a: IonBunch, b: IonBunch, k: real)
    requires b.particleMass == k * a.particleMass
    ensures b.GetParticleMassMeV() == k * a.GetParticleMassMeV()
  {
  }
}
