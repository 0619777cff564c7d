/**
 * The accelerator components the table rows turn into, the frames that
 * group them, and the record kept by the model constructor while a lattice
 * is being built.
 */
module Components {
  import opened Wrappers
  import PC = PhysicalConstants

  datatype PoleFace = PoleFace(rotation: real)

  /**
   * One component, with the values its factory rule computes: lengths in m,
   * fields in T (per m^n for the higher orders), RF frequency in Hz.
   */
  datatype Component =
    | Drift(name: string, length: real)
    | SectorBend(name: string, length: real, h: real, b0: real, b1: Option<real>, b2: Option<real>,
                 entrance: Option<PoleFace>, exit: Option<PoleFace>, tilt: real)
    | Quadrupole(name: string, length: real, gradient: real)
    | SkewQuadrupole(name: string, length: real, gradient: real)
    | Sextupole(name: string, length: real, strength: real)
    | SkewSextupole(name: string, length: real, strength: real)
    | Octupole(name: string, length: real, strength: real)
    | RectMultipole(name: string, length: real, coefficients: seq<real>)
    | YCor(name: string, length: real, strength: real)
    | XCor(name: string, length: real, strength: real)
    | Solenoid(name: string, length: real, bz: real)
    | SWRFStructure(name: string, ncells: int, frequency: real, gradient: real, phase: real)
    | CrabMarker(name: string, length: real, mux: real, muy: real)
    | TransverseRFStructure(name: string, length: real)
    | Collimator(name: string, length: real)
    | HollowElectronLens(name: string, length: real)
    | RMSProfileMonitor(name: string, length: real)
    | BPM(name: string, length: real)
    | Marker(name: string)

  /**
   * The length a component reports. A standing-wave structure spans ncells
   * half-wavelengths. The builder never makes one of frequency 0 (the rules
   * reject FREQ = 0); the 0 there only keeps Length total.
   */
  function Length(c: Component): real {
    match c
    case SWRFStructure(_, n, f, _, _) => if f == 0.0 then 0.0 else n as real * (PC.SpeedOfLight / f / 2.0)
    case Marker(_) => 0.0
    case _ => c.length
  }

  /** Total length of a run of components. */
  function SumLengths(cs: seq<Component>): real
    decreases |cs|
  {
    if cs == [] then 0.0 else SumLengths(cs[..|cs| - 1]) + Length(cs[|cs| - 1])
  }

  datatype FrameKind = SequenceFrame | SimpleMount | GirderMount | MagnetMover

  datatype Frame = Frame(kind: FrameKind, name: string)

  /** What the model constructor has been told, in order. */
  datatype Entry =
    | Placed(component: Component, position: real)
    | SrotFrame(name: string, length: real)
    | FrameBegin(frame: Frame)
    | FrameEnd

  datatype ModelConstruction = ModelConstruction(entries: seq<Entry>, open: seq<Frame>)

  const EmptyConstruction: ModelConstruction := ModelConstruction([], [])
}
