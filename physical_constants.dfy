/**
 * Physical constants and units used by the lattice builder and the particle
 * species. Masses are in kg, energies in GeV (so eV = 1e-9 and MeV = 1e-3),
 * speeds in m/s, frequencies in Hz and voltages in GV. The values follow
 * CODATA 2006, the edition the particle tables of the library are written
 * against.
 */
module PhysicalConstants {

  const SpeedOfLight: real := 299792458.0
  const ElectronCharge: real := 0.0000000000000000001602176487
  const ElectronMass: real := 0.000000000000000000000000000000910938215
  const ElectronMassMeV: real := 0.510998910
  const ProtonMass: real := 0.000000000000000000000000001672621637
  const ProtonMassMeV: real := 938.272013
  const MuonMass: real := 0.000000000000000000000000000188353130
  const MuonMassMeV: real := 105.6583668

  const eV: real := 0.000000001
  const MeV: real := 0.001
  const MHz: real := 1000000.0
  const MV: real := 0.001
  const TwoPi: real := 6.283185307179586

  /** Nearest integer, halves rounded away from zero (a truncating cast of x +/- 0.5). */
  function Round(x: real): (n: int)
    ensures -1.0 / 2.0 <= n as real - x <= 1.0 / 2.0
  {
    if x >= 0.0 then (x + 0.5).Floor else -((-x + 0.5).Floor)
  }

  lemma RoundOfInteger(k: int)
    ensures Round(k as real) == k
  {
  }
}
