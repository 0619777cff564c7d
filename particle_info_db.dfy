/**
 * The process-wide, read-only registry from species name to ParticleInfo.
 * Lookup of a name that is not a key fails: the registry has no default.
 */
module ParticleInfoDB {
  import opened Wrappers
  import opened ParticleSpecies
  import PC = PhysicalConstants

  const Registry: map<string, ParticleInfo> := map[
    "" := ParticleInfo(0.0, 0.0, 1.0),
    "e" := ParticleInfo(PC.ElectronMass, PC.ElectronMassMeV, -1.0),
    "e+" := ParticleInfo(PC.ElectronMass, PC.ElectronMassMeV, 1.0),
    "p" := ParticleInfo(PC.ProtonMass, PC.ProtonMassMeV, 1.0),
    "p-" := ParticleInfo(PC.ProtonMass, PC.ProtonMassMeV, -1.0),
    "muon-" := ParticleInfo(PC.MuonMass, PC.MuonMassMeV, -1.0),
    "muon+" := ParticleInfo(PC.MuonMass, PC.MuonMassMeV, 1.0)
  ]

  /** Checked lookup (the map's `at`): None when the name is not registered. */
  function At(name: string): (r: Option<ParticleInfo>)
    ensures r.Some? <==> name in Registry.Keys
    ensures r.Some? ==> r.value == Registry[name]
  {
    if name in Registry then Some(Registry[name]) else None
  }

  lemma RegistryKeys()
    ensures Registry.Keys == {"", "e", "e+", "p", "p-", "muon-", "muon+"}
    ensures |Registry| == 7
  {
  }

  lemma DefaultEntry()
    ensures At("") == Some(DefaultParticle)
  {
  }

  /** Each particle and its antiparticle share a mass and carry opposite unit charges. */
  lemma ChargeConjugatePairs()
    ensures Registry["e"].mass == Registry["e+"].mass && Registry["e"].massMeV == Registry["e+"].massMeV
    ensures Registry["e"].charge == -1.0 && Registry["e+"].charge == 1.0
    ensures Registry["p"].mass == Registry["p-"].mass == PC.ProtonMass
    ensures Registry["p"].charge == 1.0 && Registry["p-"].charge == -1.0
    ensures Registry["muon-"].mass == Registry["muon+"].mass == PC.MuonMass
    ensures Registry["muon-"].charge == -1.0 && Registry["muon+"].charge == 1.0
  {
  }

  /** The antiproton is registered as "p-"; the name "pbar" is not a key. */
  lemma AntiprotonName()
    ensures At("pbar") == None
    ensures At("p-").Some? && At("p-").value.charge == -1.0
  {
  }
}
