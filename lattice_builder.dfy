/**
 * The lattice builder as a function of its state: each table row is one
 * Step, and a whole table is the fold Build of Step over the rows. The
 * state is the reference momentum (GeV/c) with its rigidity brho (T m),
 * the running arc position z (m), the stack of LINE names seen, and what
 * the model constructor has been given so far.
 */
module LatticeBuilder {
  import opened Wrappers
  import opened MadTable
  import opened Components
  import TypeFactory
  import MultipoleClassifier
  import PC = PhysicalConstants

  /** The interface's settings. */
  datatype Config = Config(flatLattice: bool, honMadStructs: bool, incSR: bool, singleCellRF: bool,
                           driftTypes: set<string>, zeroLengths: set<string>)

  datatype BuildState = BuildState(momentum: real, brho: real, z: real, frameStack: seq<string>,
                                   model: ModelConstruction)

  /** Magnetic rigidity of a momentum given in GeV/c. */
  function Rigidity(momentum: real): (b: real)
    ensures b * PC.eV * PC.SpeedOfLight == momentum
    ensures momentum > 0.0 ==> b > 0.0
  {
    momentum / PC.eV / PC.SpeedOfLight
  }

  // ---------------------------------------------------------------- keyword rewriting

  function RBendKeyword(r: Row, current: string): (k: Outcome<string>)
    ensures k.Ok? <==> HasCol(r, "K0L")
    ensures k.Ok? ==> k.value == if r.values["K0L"] != 0.0 then "SBEND" else current
  {
    var k0l :- GetD(r, "K0L");
    Ok(if k0l != 0.0 then "SBEND" else current)
  }

  /**
   * The keyword a row is rewritten to. Every rule tests the keyword the row
   * arrived with, except the single-cell rule, which sees the keyword as
   * rewritten by the rules before it; a later rule overwrites an earlier one.
   */
  function OverriddenKeyword(cfg: Config, r: Row): (k: Outcome<string>)
    ensures r.keyword == "MULTIPOLE" ==> k == MultipoleClassifier.MultipoleType(r)
    ensures r.keyword == "LCAV" ==> k == Ok(if cfg.singleCellRF then "RFCAVITY_SingleCell" else "RFCAVITY")
    ensures r.keyword == "RCOLLIMATOR" || r.keyword == "ECOLLIMATOR" ==> k == Ok("COLLIMATOR")
    ensures r.keyword == "RBEND" && !HasCol(r, "K0L") ==> k == Err(MissingColumn("K0L"))
    ensures r.keyword == "RBEND" && HasCol(r, "K0L") ==>
              k == Ok(if r.values["K0L"] != 0.0 then "SBEND"
                      else if "RBEND" in cfg.driftTypes then "DRIFT" else "RBEND")
    ensures r.keyword == "RFCAVITY" ==>
              k == Ok(if "RFCAVITY" in cfg.driftTypes then "DRIFT"
                      else if cfg.singleCellRF then "RFCAVITY_SingleCell" else "RFCAVITY")
    ensures r.keyword !in {"MULTIPOLE", "LCAV", "RCOLLIMATOR", "ECOLLIMATOR", "RBEND", "RFCAVITY"} ==>
              k == Ok(if r.keyword in cfg.driftTypes then "DRIFT" else r.keyword)
  {
    var keyword := r.keyword;
    var k1 := if keyword in cfg.driftTypes then "DRIFT" else keyword;
    var k2 := if keyword == "LCAV" then "RFCAVITY" else k1;
    var k3 := if keyword == "RCOLLIMATOR" || keyword == "ECOLLIMATOR" then "COLLIMATOR" else k2;
    var k4 :- if keyword == "RBEND" then RBendKeyword(r, k3) else Ok(k3);
    var k5 := if cfg.singleCellRF && k4 == "RFCAVITY" then "RFCAVITY_SingleCell" else k4;
    if keyword == "MULTIPOLE" then MultipoleClassifier.MultipoleType(r) else Ok(k5)
  }

  // ---------------------------------------------------------------- frames

  /** Whether a LINE name opens (and closes) a frame in the model constructor. */
  predicate OpensFrame(name: string, hon: bool) {
    hon || CharAt(name, 1) == '_'
  }

  /**
   * The frame a LINE name opens. "<c>_<rest>" selects the kind by <c> and
   * names the frame <rest>; any other <c> is fatal. A name without the
   * separator opens a sequence frame of its own name only when MAD
   * structures are honoured.
   */
  function FrameFor(name: string, hon: bool): (f: Outcome<Option<Frame>>)
    ensures f.Ok? ==> (f.value.Some? <==> OpensFrame(name, hon))
    ensures CharAt(name, 1) != '_' ==> f == Ok(if hon then Some(Frame(SequenceFrame, name)) else None)
    ensures CharAt(name, 1) == '_' ==>
              && |name| >= 2
              && (f.Ok? <==> name[0] in {'F', 'S', 'G', 'M'})
              && (f.Err? ==> f.error == UnknownFrameCode(name))
              && (f.Ok? ==> f.value.Some? && f.value.value.name == name[2..])
    ensures CharAt(name, 1) == '_' && name[0] == 'F' ==> f == Ok(Some(Frame(SequenceFrame, name[2..])))
    ensures CharAt(name, 1) == '_' && name[0] == 'S' ==> f == Ok(Some(Frame(SimpleMount, name[2..])))
    ensures CharAt(name, 1) == '_' && name[0] == 'G' ==> f == Ok(Some(Frame(GirderMount, name[2..])))
    ensures CharAt(name, 1) == '_' && name[0] == 'M' ==> f == Ok(Some(Frame(MagnetMover, name[2..])))
  {
    if CharAt(name, 1) != '_' then
      Ok(if hon then Some(Frame(SequenceFrame, name)) else None)
    else
      match name[0]
      case 'F' => Ok(Some(Frame(SequenceFrame, name[2..])))
      case 'S' => Ok(Some(Frame(SimpleMount, name[2..])))
      case 'G' => Ok(Some(Frame(GirderMount, name[2..])))
      case 'M' => Ok(Some(Frame(MagnetMover, name[2..])))
      case _ => Err(UnknownFrameCode(name))
  }

  /** Open the frame a LINE name selects, if it selects one. */
  function ConstructNewFrame(mc: ModelConstruction, name: string, hon: bool): (t: Outcome<ModelConstruction>)
    ensures t.Ok? <==> FrameFor(name, hon).Ok?
    ensures t.Ok? && !OpensFrame(name, hon) ==> t.value == mc
    ensures t.Ok? && OpensFrame(name, hon) ==>
              var f := FrameFor(name, hon).value.value;
              t.value == ModelConstruction(mc.entries + [FrameBegin(f)], mc.open + [f])
  {
    var f :- FrameFor(name, hon);
    if f.None? then Ok(mc)
    else Ok(ModelConstruction(mc.entries + [FrameBegin(f.value)], mc.open + [f.value]))
  }

  /** Close the innermost open frame, for a LINE name that opens frames. */
  function EndFrame(mc: ModelConstruction, name: string, hon: bool): (t: Outcome<ModelConstruction>)
    ensures !OpensFrame(name, hon) ==> t == Ok(mc)
    ensures OpensFrame(name, hon) ==> (t.Ok? <==> mc.open != [])
    ensures t.Err? ==> t.error == NoOpenFrame(name)
    ensures t.Ok? && OpensFrame(name, hon) ==>
              t.value.entries == mc.entries + [FrameEnd] && t.value.open + [mc.open[|mc.open| - 1]] == mc.open
  {
    if !OpensFrame(name, hon) then Ok(mc)
    else if mc.open == [] then Err(NoOpenFrame(name))
    else Ok(ModelConstruction(mc.entries + [FrameEnd], mc.open[..|mc.open| - 1]))
  }

  /** Whether name is the innermost LINE still open on the builder's stack. */
  predicate OnTop(stack: seq<string>, name: string) {
    |stack| > 0 && name == stack[|stack| - 1]
  }

  /**
   * A LINE row: ignored when flat; a name on top of the stack is popped and
   * closes its frame, any other name is pushed and opens one.
   */
  function LineStep(cfg: Config, s: BuildState, name: string): (t: Outcome<BuildState>)
    ensures t.Ok? ==> t.value.momentum == s.momentum && t.value.brho == s.brho && t.value.z == s.z
    ensures cfg.flatLattice ==> t == Ok(s)
    ensures !cfg.flatLattice && OnTop(s.frameStack, name) ==>
              && (t.Ok? <==> !OpensFrame(name, cfg.honMadStructs) || s.model.open != [])
              && (t.Err? ==> t.error == NoOpenFrame(name))
              && (t.Ok? ==>
                    var closed := if OpensFrame(name, cfg.honMadStructs) then 1 else 0;
                    && t.value.frameStack == s.frameStack[..|s.frameStack| - 1]
                    && t.value.model.entries == s.model.entries + (if closed == 1 then [FrameEnd] else [])
                    && t.value.model.open == s.model.open[..|s.model.open| - closed])
    ensures !cfg.flatLattice && !OnTop(s.frameStack, name) ==>
              && (t.Ok? <==> FrameFor(name, cfg.honMadStructs).Ok?)
              && (t.Err? ==> t.error == UnknownFrameCode(name))
              && (t.Ok? ==>
                    var added := if OpensFrame(name, cfg.honMadStructs) then 1 else 0;
                    && t.value.frameStack == s.frameStack + [name]
                    && |t.value.model.open| == |s.model.open| + added
                    && t.value.model.open[..|s.model.open|] == s.model.open
                    && |t.value.model.entries| == |s.model.entries| + added
                    && t.value.model.entries[..|s.model.entries|] == s.model.entries)
  {
    if cfg.flatLattice then Ok(s)
    else if OnTop(s.frameStack, name) then
      var mc :- EndFrame(s.model, name, cfg.honMadStructs);
      Ok(s.(frameStack := s.frameStack[..|s.frameStack| - 1], model := mc))
    else
      var mc :- ConstructNewFrame(s.model, name, cfg.honMadStructs);
      Ok(s.(frameStack := s.frameStack + [name], model := mc))
  }

  // ---------------------------------------------------------------- synchrotron radiation

  /** Radiation constant C_gamma / 2 pi, in m / GeV^3. */
  const RadiationConstant: real := 8.85e-05 / PC.TwoPi

  /** Energy radiated by an electron of energy e over length len of curvature h. */
  function SRdE(h: real, len: real, e: real): real {
    RadiationConstant * (e * e) * (e * e) * (h * h) * len
  }

  /** The debit is never negative over a non-negative length. */
  lemma SRdENonNegative(h: real, len: real, e: real)
    ensures len >= 0.0 ==> SRdE(h, len, e) >= 0.0
  {
    var e2 := e * e;
    var h2 := h * h;
    assert e2 >= 0.0 && h2 >= 0.0;
    var a := RadiationConstant * e2;
    assert a >= 0.0;
    var b := a * e2;
    assert b >= 0.0;
    var c := b * h2;
    assert c >= 0.0;
    assert len >= 0.0 ==> c * len >= 0.0;
  }

  /** The momentum debit of a bend row, after which brho follows the new momentum. */
  function Radiate(s: BuildState, r: Row, length: real): (t: Outcome<BuildState>)
    ensures t.Ok? <==> HasCol(r, "ANGLE") && length != 0.0
    ensures t.Err? && HasCol(r, "ANGLE") ==> t.error == NonFiniteField(r.name)
    ensures t.Ok? ==> t.value == s.(momentum := t.value.momentum, brho := Rigidity(t.value.momentum))
    ensures t.Ok? ==> t.value.momentum == s.momentum - SRdE(r.values["ANGLE"] / length, length, s.momentum)
    ensures t.Ok? && length > 0.0 ==> t.value.momentum <= s.momentum
  {
    var angle :- GetD(r, "ANGLE");
    if length == 0.0 then Err(NonFiniteField(r.name))
    else
      SRdENonNegative(angle / length, length, s.momentum);
      var p := s.momentum - SRdE(angle / length, length, s.momentum);
      Ok(s.(momentum := p, brho := Rigidity(p)))
  }

  // ---------------------------------------------------------------- placement

  /**
   * Append the components in order, each tagged with the running position,
   * which then grows by the component's length.
   */
  function Place(s: BuildState, cs: seq<Component>): (t: BuildState)
    decreases |cs|
    ensures t.momentum == s.momentum && t.brho == s.brho && t.frameStack == s.frameStack
    ensures t.model.open == s.model.open
    ensures t.z == s.z + SumLengths(cs)
    ensures |t.model.entries| == |s.model.entries| + |cs|
    ensures t.model.entries[..|s.model.entries|] == s.model.entries
  {
    if cs == [] then s
    else
      var before := Place(s, cs[..|cs| - 1]);
      var c := cs[|cs| - 1];
      before.(z := before.z + Length(c),
              model := before.model.(entries := before.model.entries + [Placed(c, before.z)]))
  }

  /** Component i is placed at the start position plus the lengths of the components before it. */
  lemma {:induction false} PlacedAt(s: BuildState, cs: seq<Component>, i: nat)
    requires i < |cs|
    decreases |cs|
    ensures Place(s, cs).model.entries[|s.model.entries| + i] == Placed(cs[i], s.z + SumLengths(cs[..i]))
  {
    var init := cs[..|cs| - 1];
    var before := Place(s, init);
    assert Place(s, cs).model.entries == before.model.entries + [Placed(cs[|cs| - 1], before.z)];
    if i < |cs| - 1 {
      PlacedAt(s, init, i);
      assert init[i] == cs[i] && init[..i] == cs[..i];
    } else {
      assert cs[..i] == init;
    }
  }

  /** t's model is the model m with the run cs placed from arc position z, in order. */
  predicate PlacedRun(m: ModelConstruction, z: real, t: BuildState, cs: seq<Component>) {
    && |t.model.entries| == |m.entries| + |cs|
    && t.model.entries[..|m.entries|] == m.entries
    && t.model.open == m.open
    && t.z == z + SumLengths(cs)
    && forall i :: 0 <= i < |cs| ==>
         t.model.entries[|m.entries| + i] == Placed(cs[i], z + SumLengths(cs[..i]))
  }

  /** Placing a run places every component of it at its arc position. */
  lemma PlaceAll(s: BuildState, cs: seq<Component>)
    ensures PlacedRun(s.model, s.z, Place(s, cs), cs)
  {
    forall i | 0 <= i < |cs|
      ensures Place(s, cs).model.entries[|s.model.entries| + i] == Placed(cs[i], s.z + SumLengths(cs[..i]))
    {
      PlacedAt(s, cs, i);
    }
  }

  // ---------------------------------------------------------------- one row, and a table

  predicate IsBend(keyword: string) {
    keyword == "SBEND" || keyword == "RBEND"
  }

  /**
   * One row. The zero-length skip, the LINE and SROT tests and the
   * radiation test use the keyword the row arrived with; the factory sees
   * the rewritten one, and the rigidity from before the row.
   */
  function Step(cfg: Config, s: BuildState, r: Row): (t: Outcome<BuildState>)
    ensures !HasCol(r, "L") ==> t == Err(MissingColumn("L"))
    ensures HasCol(r, "L") && r.values["L"] == 0.0 && r.keyword in cfg.zeroLengths ==> t == Ok(s)
    ensures t.Ok? && !(cfg.incSR && IsBend(r.keyword)) ==>
              t.value.momentum == s.momentum && t.value.brho == s.brho
    ensures t.Ok? && r.keyword != "LINE" ==> t.value.frameStack == s.frameStack && t.value.model.open == s.model.open
    ensures t.Err? && t.error.NoOpenFrame? ==> r.keyword == "LINE" && t == LineStep(cfg, s, r.name)
    ensures HasCol(r, "L") && !(r.values["L"] == 0.0 && r.keyword in cfg.zeroLengths) && r.keyword == "LINE" ==>
              t == LineStep(cfg, s, r.name)
    ensures HasCol(r, "L") && !(r.values["L"] == 0.0 && r.keyword in cfg.zeroLengths) && r.keyword == "SROT" ==>
              t == Ok(s.(model := s.model.(entries := s.model.entries + [SrotFrame(r.name, r.values["L"])])))
    ensures HasCol(r, "L") && !(r.values["L"] == 0.0 && r.keyword in cfg.zeroLengths)
            && r.keyword != "LINE" && r.keyword != "SROT" ==>
              var k := OverriddenKeyword(cfg, r);
              t == if k.Err? then Err(k.error) else ComponentStep(cfg, s, r, k.value, r.values["L"])
  {
    var length :- GetD(r, "L");
    if length == 0.0 && r.keyword in cfg.zeroLengths then Ok(s)
    else
      var keyword :- OverriddenKeyword(cfg, r);
      if r.keyword == "LINE" then LineStep(cfg, s, r.name)
      else if r.keyword == "SROT" then
        Ok(s.(model := s.model.(entries := s.model.entries + [SrotFrame(r.name, length)])))
      else ComponentStep(cfg, s, r, keyword, length)
  }

  /**
   * A row that builds components: the factory runs on the rewritten keyword
   * with the current brho, a bend then radiates, and the components are placed.
   */
  function ComponentStep(cfg: Config, s: BuildState, r: Row, keyword: string, length: real): (t: Outcome<BuildState>)
    ensures var built := TypeFactory.Instance(r.(keyword := keyword), s.brho);
            && (built.Err? ==> t == Err(built.error))
            && (t.Ok? ==> built.Ok? && PlacedRun(s.model, s.z, t.value, built.value))
    ensures t.Ok? ==> t.value.frameStack == s.frameStack && t.value.model.open == s.model.open
    ensures t.Ok? && !(cfg.incSR && IsBend(r.keyword)) ==> t.value.momentum == s.momentum && t.value.brho == s.brho
    ensures t.Ok? && cfg.incSR && IsBend(r.keyword) ==>
              && HasCol(r, "ANGLE") && length != 0.0
              && t.value.momentum == s.momentum - SRdE(r.values["ANGLE"] / length, length, s.momentum)
              && t.value.brho == Rigidity(t.value.momentum)
    ensures (&& TypeFactory.Instance(r.(keyword := keyword), s.brho).Ok?
             && (cfg.incSR && IsBend(r.keyword) ==> HasCol(r, "ANGLE") && length != 0.0)) ==> t.Ok?
    ensures t.Err? ==> TypeFactory.RuleError(t.error)
  {
    var cs :- TypeFactory.Instance(r.(keyword := keyword), s.brho);
    var radiated :- RadiateIfBend(cfg, s, r, length);
    PlaceAll(radiated, cs);
    Ok(Place(radiated, cs))
  }

  /** A bend row radiates when radiation is on; any other row leaves the state as it is. */
  function RadiateIfBend(cfg: Config, s: BuildState, r: Row, length: real): (u: Outcome<BuildState>)
    ensures u.Ok? ==> u.value.z == s.z && u.value.model == s.model && u.value.frameStack == s.frameStack
    ensures u.Ok? && !(cfg.incSR && IsBend(r.keyword)) ==> u.value == s
    ensures u.Ok? && cfg.incSR && IsBend(r.keyword) ==>
              && HasCol(r, "ANGLE") && length != 0.0
              && u.value.momentum == s.momentum - SRdE(r.values["ANGLE"] / length, length, s.momentum)
              && u.value.brho == Rigidity(u.value.momentum)
    ensures u.Err? ==> TypeFactory.RuleError(u.error)
  {
    if cfg.incSR && IsBend(r.keyword) then Radiate(s, r, length) else Ok(s)
  }

  /** The rows in order, from a starting state; the first failing row ends the build. */
  function Build(cfg: Config, s: BuildState, rows: seq<Row>): Outcome<BuildState>
    decreases |rows|
  {
    if rows == [] then Ok(s)
    else
      var before :- Build(cfg, s, rows[..|rows| - 1]);
      Step(cfg, before, rows[|rows| - 1])
  }

  /** A prefix one row longer is the shorter prefix's build followed by that row. */
  lemma BuildOneMore(cfg: Config, s: BuildState, rows: seq<Row>, i: nat)
    requires i < |rows| && Build(cfg, s, rows[..i]).Ok?
    ensures Build(cfg, s, rows[..i + 1]) == Step(cfg, Build(cfg, s, rows[..i]).value, rows[i])
  {
    assert rows[..i + 1][..i] == rows[..i];
  }

  /** Once a prefix of the table fails, the whole table fails with the same error. */
  lemma {:induction false} BuildStopsAt(cfg: Config, s: BuildState, rows: seq<Row>, n: nat)
    requires n <= |rows| && Build(cfg, s, rows[..n]).Err?
    decreases |rows|
    ensures Build(cfg, s, rows) == Build(cfg, s, rows[..n])
  {
    if n < |rows| {
      var init := rows[..|rows| - 1];
      assert init[..n] == rows[..n];
      BuildStopsAt(cfg, s, init, n);
    } else {
      assert rows[..n] == rows;
    }
  }

  /** The state a build starts from: a fresh model constructor, brho from the momentum. */
  function Start(momentum: real, z: real, frameStack: seq<string>): BuildState {
    BuildState(momentum, Rigidity(momentum), z, frameStack, EmptyConstruction)
  }
}
