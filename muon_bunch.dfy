/**
 * A bunch of negative muons: every constructor binds the registry entry
 * "muon-", and the bunch keeps six scatter-event tally counters for
 * diagnostics.
 */
module MuonBunches {
  import opened Wrappers
  import opened BunchBase
  import opened ParticleSpecies
  import ParticleInfoDB
  import PC = PhysicalConstants

  const NTally: nat := 6

  /** The species every muon bunch is bound to: the registry's "muon-" entry, which is present. */
  function MuonInfo(): (info: ParticleInfo)
    ensures info == ParticleInfo(PC.MuonMass, PC.MuonMassMeV, -1.0)
    ensures ParticleInfoDB.At("muon-") == Some(info)
  {
    ParticleInfoDB.Registry["muon-"]
  }

  class MuonBunch {
    var origin: BunchOrigin
    var particles: seq<PSvector>
    var species: ParticleInfo
    /** Not initialised by any constructor; defined only after Set. */
    var tally: array<int>

    /** Moves the caller's vectors into the bunch; the array is empty on exit. */
    constructor FromArray(P0: real, Q: real, source: PSvectorArray)
      modifies source
      ensures source.vectors == [] && particles == old(source.vectors)
      ensures origin == BunchOrigin.FromArray(P0, Q) && species == MuonInfo()
      ensures fresh(tally) && tally.Length == NTally
    {
      origin := BunchOrigin.FromArray(P0, Q);
      particles := source.vectors;
      species := MuonInfo();
      tally := new int[NTally];
      new;
      source.vectors := [];
    }

    /** `read` stands for the vectors the base bunch parses from the stream. */
    constructor FromStream(P0: real, Q: real, read: seq<PSvector>)
      ensures particles == read && origin == BunchOrigin.FromStream(P0, Q) && species == MuonInfo()
      ensures fresh(tally) && tally.Length == NTally
    {
      origin := BunchOrigin.FromStream(P0, Q);
      particles := read;
      species := MuonInfo();
      tally := new int[NTally];
    }

    /** An empty bunch with charge Qm per macro-particle. */
    constructor Empty(P0: real, Qm: real := 1.0)
      ensures particles == [] && origin == BunchOrigin.Empty(P0, Qm) && species == MuonInfo()
      ensures fresh(tally) && tally.Length == NTally
    {
      origin := BunchOrigin.Empty(P0, Qm);
      particles := [];
      species := MuonInfo();
      tally := new int[NTally];
    }

    /** `population` stands for what the base bunch draws from the generator through the filter. */
    constructor Generated(np: nat, population: seq<PSvector>, filter: Option<FilterHandle> := None)
      ensures particles == population && origin == BunchOrigin.Generated(np, filter)
      ensures species == MuonInfo()
      ensures fresh(tally) && tally.Length == NTally
    {
      origin := BunchOrigin.Generated(np, filter);
      particles := population;
      species := MuonInfo();
      tally := new int[NTally];
    }

    /** Resets every tally counter to zero; nothing else changes. */
    method Set()
      modifies tally
      ensures forall i :: 0 <= i < tally.Length ==> tally[i] == 0
    {
      for i := 0 to tally.Length
        invariant forall j :: 0 <= j < i ==> tally[j] == 0
      {
        tally[i] := 0;
      }
    }
  }
}
