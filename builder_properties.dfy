/**
 * What the builder keeps true from row to row: brho follows the momentum,
 * radiation only removes momentum, every placed component sits at the arc
 * position reached by the components before it, and the frames open in the
 * model constructor are exactly those named on the LINE stack.
 */
module BuilderProperties {
  import opened Wrappers
  import opened MadTable
  import opened Components
  import opened LatticeBuilder

  // ---------------------------------------------------------------- momentum and rigidity

  predicate RigidityCurrent(s: BuildState) {
    s.brho == Rigidity(s.momentum)
  }

  lemma StepKeepsRigidity(cfg: Config, s: BuildState, r: Row)
    requires RigidityCurrent(s) && Step(cfg, s, r).Ok?
    ensures RigidityCurrent(Step(cfg, s, r).value)
  {
    if HasCol(r, "L") && !(r.values["L"] == 0.0 && r.keyword in cfg.zeroLengths)
       && cfg.incSR && IsBend(r.keyword) && r.keyword != "LINE" && r.keyword != "SROT" {
      var keyword := OverriddenKeyword(cfg, r).value;
      var cs := TypeFactory.Instance(r.(keyword := keyword), s.brho).value;
      var radiated := Radiate(s, r, r.values["L"]).value;
      assert Step(cfg, s, r) == Ok(Place(radiated, cs));
    }
  }

  /** brho is recomputed whenever the momentum changes, so it always matches it. */
  lemma {:induction false} BuildKeepsRigidity(cfg: Config, s: BuildState, rows: seq<Row>)
    requires RigidityCurrent(s) && Build(cfg, s, rows).Ok?
    decreases |rows|
    ensures RigidityCurrent(Build(cfg, s, rows).value)
  {
    if rows != [] {
      BuildKeepsRigidity(cfg, s, rows[..|rows| - 1]);
      StepKeepsRigidity(cfg, Build(cfg, s, rows[..|rows| - 1]).value, rows[|rows| - 1]);
    }
  }

  /** Without synchrotron radiation the momentum and brho never change. */
  lemma {:induction false} BuildWithoutRadiation(cfg: Config, s: BuildState, rows: seq<Row>)
    requires !cfg.incSR && Build(cfg, s, rows).Ok?
    decreases |rows|
    ensures Build(cfg, s, rows).value.momentum == s.momentum
    ensures Build(cfg, s, rows).value.brho == s.brho
  {
    if rows != [] {
      BuildWithoutRadiation(cfg, s, rows[..|rows| - 1]);
    }
  }

  predicate LengthsNonNegative(rows: seq<Row>) {
    forall i :: 0 <= i < |rows| && HasCol(rows[i], "L") ==> rows[i].values["L"] >= 0.0
  }

  lemma StepNeverGainsMomentum(cfg: Config, s: BuildState, r: Row)
    requires Step(cfg, s, r).Ok? && HasCol(r, "L") && r.values["L"] >= 0.0
    ensures Step(cfg, s, r).value.momentum <= s.momentum
  {
    if !(r.values["L"] == 0.0 && r.keyword in cfg.zeroLengths)
       && cfg.incSR && IsBend(r.keyword) && r.keyword != "LINE" && r.keyword != "SROT" {
      var keyword := OverriddenKeyword(cfg, r).value;
      var cs := TypeFactory.Instance(r.(keyword := keyword), s.brho).value;
      var radiated := Radiate(s, r, r.values["L"]).value;
      assert Step(cfg, s, r) == Ok(Place(radiated, cs));
    }
  }

  /** Over non-negative lengths, radiation can only lower the momentum. */
  lemma {:induction false} BuildNeverGainsMomentum(cfg: Config, s: BuildState, rows: seq<Row>)
    requires LengthsNonNegative(rows) && Build(cfg, s, rows).Ok?
    decreases |rows|
    ensures Build(cfg, s, rows).value.momentum <= s.momentum
  {
    if rows != [] {
      var init := rows[..|rows| - 1];
      var last := rows[|rows| - 1];
      assert LengthsNonNegative(init) by {
        forall i | 0 <= i < |init| && HasCol(init[i], "L")
          ensures init[i].values["L"] >= 0.0
        {
          assert init[i] == rows[i];
        }
      }
      BuildNeverGainsMomentum(cfg, s, init);
      StepNeverGainsMomentum(cfg, Build(cfg, s, init).value, last);
    }
  }

  /**
   * A bend row that the rewrite makes an SBEND: the factory builds the bend
   * from the rewritten row with the rigidity from before the row, and only
   * afterwards does the debit lower the momentum and brho follow it.
   */
  lemma RadiatingBendUsesOldRigidity(cfg: Config, s: BuildState, r: Row)
    requires cfg.incSR && IsBend(r.keyword) && OverriddenKeyword(cfg, r) == Ok("SBEND")
    requires HasCol(r, "L") && r.values["L"] != 0.0 && Step(cfg, s, r).Ok?
    ensures var t := Step(cfg, s, r).value;
            var n := |s.model.entries|;
            && HasCol(r, "ANGLE")
            && |t.model.entries| == n + 1
            && t.model.entries[n].Placed? && t.model.entries[n].position == s.z
            && t.model.entries[n].component.SectorBend?
            && t.model.entries[n].component.b0 * r.values["L"] == s.brho * r.values["ANGLE"]
            && t.momentum == s.momentum - SRdE(r.values["ANGLE"] / r.values["L"], r.values["L"], s.momentum)
            && t.brho == Rigidity(t.momentum)
  {
    BendRowIsComponentStep(cfg, s, r);
    BendPlacedWithOldRigidity(cfg, s, r);
  }

  /** A non-skipped bend row rewritten to SBEND is the component step on SBEND. */
  lemma BendRowIsComponentStep(cfg: Config, s: BuildState, r: Row)
    requires IsBend(r.keyword) && OverriddenKeyword(cfg, r) == Ok("SBEND")
    requires HasCol(r, "L") && r.values["L"] != 0.0
    ensures Step(cfg, s, r) == ComponentStep(cfg, s, r, "SBEND", r.values["L"])
  {
  }

  /** The SBEND a bend row builds sits at the row's start and carries the rigidity s.brho. */
  lemma BendPlacedWithOldRigidity(cfg: Config, s: BuildState, r: Row)
    requires HasCol(r, "L") && ComponentStep(cfg, s, r, "SBEND", r.values["L"]).Ok?
    ensures var t := ComponentStep(cfg, s, r, "SBEND", r.values["L"]).value;
            var n := |s.model.entries|;
            && HasCol(r, "ANGLE")
            && |t.model.entries| == n + 1
            && t.model.entries[n].Placed? && t.model.entries[n].position == s.z
            && t.model.entries[n].component.SectorBend?
            && t.model.entries[n].component.b0 * r.values["L"] == s.brho * r.values["ANGLE"]
  {
    var t := ComponentStep(cfg, s, r, "SBEND", r.values["L"]).value;
    var rewritten := r.(keyword := "SBEND");
    assert TypeFactory.Registry["SBEND"] == TypeFactory.SBendRule;
    var built := TypeFactory.SBendInstance(rewritten, s.brho);
    assert TypeFactory.Instance(rewritten, s.brho) == built;
    var cs := built.value;
    assert PlacedRun(s.model, s.z, t, cs);
    assert cs[..0] == [];
    assert TypeFactory.BendFieldsMatch(cs[0], rewritten, s.brho);
  }

  // ---------------------------------------------------------------- positions

  /** Total length of the components among some entries. */
  function PlacedLength(es: seq<Entry>): real
    decreases |es|
  {
    if es == [] then 0.0
    else PlacedLength(es[..|es| - 1]) + (if es[|es| - 1].Placed? then Length(es[|es| - 1].component) else 0.0)
  }

  /**
   * Measured from z0: z is the total placed length, and every placed
   * component sits at the total length of the components placed before it.
   */
  predicate PositionsConsistent(s: BuildState, z0: real) {
    var es := s.model.entries;
    && s.z == z0 + PlacedLength(es)
    && forall i :: 0 <= i < |es| && es[i].Placed? ==> es[i].position == z0 + PlacedLength(es[..i])
  }

  lemma AppendEntryKeepsPositions(s: BuildState, e: Entry, z: real, z0: real)
    requires PositionsConsistent(s, z0)
    requires e.Placed? ==> e.position == s.z && z == s.z + Length(e.component)
    requires !e.Placed? ==> z == s.z
    ensures PositionsConsistent(s.(z := z, model := s.model.(entries := s.model.entries + [e])), z0)
  {
    var es := s.model.entries;
    var es' := es + [e];
    assert es'[..|es|] == es;
    forall i | 0 <= i < |es'| && es'[i].Placed?
      ensures es'[i].position == z0 + PlacedLength(es'[..i])
    {
      if i < |es| {
        assert es'[..i] == es[..i];
      }
    }
  }

  lemma {:induction false} PlaceKeepsPositions(s: BuildState, cs: seq<Component>, z0: real)
    requires PositionsConsistent(s, z0)
    decreases |cs|
    ensures PositionsConsistent(Place(s, cs), z0)
  {
    if cs != [] {
      var before := Place(s, cs[..|cs| - 1]);
      PlaceKeepsPositions(s, cs[..|cs| - 1], z0);
      var c := cs[|cs| - 1];
      AppendEntryKeepsPositions(before, Placed(c, before.z), before.z + Length(c), z0);
    }
  }

  lemma StepKeepsPositions(cfg: Config, s: BuildState, r: Row, z0: real)
    requires PositionsConsistent(s, z0) && Step(cfg, s, r).Ok?
    ensures PositionsConsistent(Step(cfg, s, r).value, z0)
  {
    if HasCol(r, "L") && !(r.values["L"] == 0.0 && r.keyword in cfg.zeroLengths) {
      var keyword := OverriddenKeyword(cfg, r).value;
      if r.keyword == "LINE" {
        LineStepKeepsPositions(cfg, s, r.name, z0);
      } else if r.keyword == "SROT" {
        AppendEntryKeepsPositions(s, SrotFrame(r.name, r.values["L"]), s.z, z0);
      } else {
        var cs := TypeFactory.Instance(r.(keyword := keyword), s.brho).value;
        var radiated := if cfg.incSR && IsBend(r.keyword) then Radiate(s, r, r.values["L"]).value else s;
        assert Step(cfg, s, r) == Ok(Place(radiated, cs));
        PlaceKeepsPositions(radiated, cs, z0);
      }
    }
  }

  lemma LineStepKeepsPositions(cfg: Config, s: BuildState, name: string, z0: real)
    requires PositionsConsistent(s, z0) && LineStep(cfg, s, name).Ok?
    ensures PositionsConsistent(LineStep(cfg, s, name).value, z0)
  {
    var t := LineStep(cfg, s, name).value;
    if !cfg.flatLattice {
      if t.model.entries != s.model.entries {
        var e := t.model.entries[|t.model.entries| - 1];
        assert t.model.entries == s.model.entries + [e];
        AppendEntryKeepsPositions(s, e, s.z, z0);
        assert t == s.(z := s.z, model := s.model.(entries := s.model.entries + [e], open := t.model.open),
                       frameStack := t.frameStack);
      }
    }
  }

  /**
   * Over a whole table, measured from the starting position: z ends at the
   * total placed length, and each component is tagged with the arc position
   * at which it begins.
   */
  lemma {:induction false} BuildKeepsPositions(cfg: Config, s: BuildState, rows: seq<Row>, z0: real)
    requires PositionsConsistent(s, z0) && Build(cfg, s, rows).Ok?
    decreases |rows|
    ensures PositionsConsistent(Build(cfg, s, rows).value, z0)
  {
    if rows != [] {
      BuildKeepsPositions(cfg, s, rows[..|rows| - 1], z0);
      StepKeepsPositions(cfg, Build(cfg, s, rows[..|rows| - 1]).value, rows[|rows| - 1], z0);
    }
  }

  // ---------------------------------------------------------------- frames

  /** The frames the stacked LINE names open, innermost last. */
  function StackFrames(stack: seq<string>, hon: bool): seq<Frame>
    decreases |stack|
  {
    if stack == [] then []
    else
      StackFrames(stack[..|stack| - 1], hon)
      + match FrameFor(stack[|stack| - 1], hon)
        case Ok(Some(f)) => [f]
        case _ => []
  }

  /** How many stacked LINE names open a frame. */
  function OpenCount(stack: seq<string>, hon: bool): nat
    decreases |stack|
  {
    if stack == [] then 0
    else OpenCount(stack[..|stack| - 1], hon) + if OpensFrame(stack[|stack| - 1], hon) then 1 else 0
  }

  predicate NamesValid(stack: seq<string>, hon: bool) {
    forall i :: 0 <= i < |stack| ==> FrameFor(stack[i], hon).Ok?
  }

  /** The constructor's open frames are exactly the ones the stacked names opened. */
  predicate FramesMatch(s: BuildState, hon: bool) {
    NamesValid(s.frameStack, hon) && s.model.open == StackFrames(s.frameStack, hon)
  }

  /** So the open-frame depth is the number of stacked names that open a frame. */
  lemma {:induction false} FrameDepth(stack: seq<string>, hon: bool)
    requires NamesValid(stack, hon)
    decreases |stack|
    ensures |StackFrames(stack, hon)| == OpenCount(stack, hon)
  {
    if stack != [] {
      var init := stack[..|stack| - 1];
      assert NamesValid(init, hon) by {
        forall i | 0 <= i < |init| ensures FrameFor(init[i], hon).Ok? {
          assert init[i] == stack[i];
        }
      }
      FrameDepth(init, hon);
      assert FrameFor(stack[|stack| - 1], hon).Ok?;
    }
  }

  /** Closing the name on top of the stack always finds its frame open, and keeps the frames matching. */
  lemma PopKeepsFrames(cfg: Config, s: BuildState, name: string)
    requires !cfg.flatLattice && FramesMatch(s, cfg.honMadStructs)
    requires |s.frameStack| > 0 && name == s.frameStack[|s.frameStack| - 1]
    ensures LineStep(cfg, s, name).Ok?
    ensures LineStep(cfg, s, name).value.frameStack == s.frameStack[..|s.frameStack| - 1]
    ensures |LineStep(cfg, s, name).value.model.open| == |s.model.open| - (if OpensFrame(name, cfg.honMadStructs) then 1 else 0)
    ensures FramesMatch(LineStep(cfg, s, name).value, cfg.honMadStructs)
  {
    var hon := cfg.honMadStructs;
    var stack := s.frameStack;
    var init := stack[..|stack| - 1];
    assert stack == init + [name];
    assert FrameFor(name, hon).Ok?;
    assert NamesValid(init, hon) by {
      forall i | 0 <= i < |init| ensures FrameFor(init[i], hon).Ok? {
        assert init[i] == stack[i];
      }
    }
    if OpensFrame(name, hon) {
      var f := FrameFor(name, hon).value.value;
      assert s.model.open == StackFrames(init, hon) + [f];
      var mc := EndFrame(s.model, name, hon).value;
      assert mc.open + [s.model.open[|s.model.open| - 1]] == s.model.open;
      assert mc.open == s.model.open[..|s.model.open| - 1];
    }
  }

  /** Opening a frame for a name not on top keeps the frames matching; it can fail only on an unknown frame code. */
  lemma PushKeepsFrames(cfg: Config, s: BuildState, name: string)
    requires !cfg.flatLattice && FramesMatch(s, cfg.honMadStructs)
    requires |s.frameStack| == 0 || name != s.frameStack[|s.frameStack| - 1]
    ensures LineStep(cfg, s, name).Err? ==> LineStep(cfg, s, name).error == UnknownFrameCode(name)
    ensures LineStep(cfg, s, name).Ok? ==>
              && LineStep(cfg, s, name).value.frameStack == s.frameStack + [name]
              && |LineStep(cfg, s, name).value.model.open| == |s.model.open| + (if OpensFrame(name, cfg.honMadStructs) then 1 else 0)
    ensures LineStep(cfg, s, name).Ok? ==> FramesMatch(LineStep(cfg, s, name).value, cfg.honMadStructs)
  {
    var hon := cfg.honMadStructs;
    var stack := s.frameStack;
    var stack' := stack + [name];
    assert stack'[..|stack|] == stack;
    if FrameFor(name, hon).Ok? {
      assert NamesValid(stack', hon) by {
        forall i | 0 <= i < |stack'| ensures FrameFor(stack'[i], hon).Ok? {
          if i < |stack| {
            assert stack'[i] == stack[i];
          }
        }
      }
    }
  }

  lemma LineStepKeepsFrames(cfg: Config, s: BuildState, name: string)
    requires FramesMatch(s, cfg.honMadStructs)
    ensures !(LineStep(cfg, s, name).Err? && LineStep(cfg, s, name).error.NoOpenFrame?)
    ensures LineStep(cfg, s, name).Ok? ==> FramesMatch(LineStep(cfg, s, name).value, cfg.honMadStructs)
  {
    var stack := s.frameStack;
    if !cfg.flatLattice {
      if |stack| > 0 && name == stack[|stack| - 1] {
        PopKeepsFrames(cfg, s, name);
      } else {
        PushKeepsFrames(cfg, s, name);
      }
    }
  }

  lemma StepKeepsFrames(cfg: Config, s: BuildState, r: Row)
    requires FramesMatch(s, cfg.honMadStructs)
    ensures !(Step(cfg, s, r).Err? && Step(cfg, s, r).error.NoOpenFrame?)
    ensures Step(cfg, s, r).Ok? ==> FramesMatch(Step(cfg, s, r).value, cfg.honMadStructs)
  {
    if r.keyword == "LINE" {
      LineStepKeepsFrames(cfg, s, r.name);
    }
  }

  /**
   * Starting with frames that match the stack, a build never closes a
   * frame the constructor does not have open, and ends with frames that
   * still match the stack.
   */
  lemma {:induction false} BuildKeepsFrames(cfg: Config, s: BuildState, rows: seq<Row>)
    requires FramesMatch(s, cfg.honMadStructs)
    decreases |rows|
    ensures !(Build(cfg, s, rows).Err? && Build(cfg, s, rows).error.NoOpenFrame?)
    ensures Build(cfg, s, rows).Ok? ==> FramesMatch(Build(cfg, s, rows).value, cfg.honMadStructs)
  {
    if rows != [] {
      BuildKeepsFrames(cfg, s, rows[..|rows| - 1]);
      if Build(cfg, s, rows[..|rows| - 1]).Ok? {
        StepKeepsFrames(cfg, Build(cfg, s, rows[..|rows| - 1]).value, rows[|rows| - 1]);
      }
    }
  }

  /** A fresh build with an empty LINE stack never meets a close without an open frame. */
  lemma FreshBuildNeverLacksFrame(cfg: Config, momentum: real, z: real, rows: seq<Row>)
    ensures !(Build(cfg, Start(momentum, z, []), rows).Err?
              && Build(cfg, Start(momentum, z, []), rows).error.NoOpenFrame?)
  {
    BuildKeepsFrames(cfg, Start(momentum, z, []), rows);
  }

  /**
   * A LINE name that is not on top opens its frame; the same name next
   * closes it, leaving the stack and the open frames as they were.
   */
  lemma LinePairRestores(cfg: Config, s: BuildState, name: string)
    requires !cfg.flatLattice && FramesMatch(s, cfg.honMadStructs)
    requires |s.frameStack| == 0 || s.frameStack[|s.frameStack| - 1] != name
    requires LineStep(cfg, s, name).Ok?
    ensures LineStep(cfg, LineStep(cfg, s, name).value, name).Ok?
    ensures var t := LineStep(cfg, LineStep(cfg, s, name).value, name).value;
            t.frameStack == s.frameStack && t.model.open == s.model.open
  {
    PushKeepsFrames(cfg, s, name);
    var s1 := LineStep(cfg, s, name).value;
    assert s1.frameStack == s.frameStack + [name];
    PopKeepsFrames(cfg, s1, name);
    var t := LineStep(cfg, s1, name).value;
    assert t.frameStack == s.frameStack;
  }

  /**
   * A build started afresh (empty LINE stack, new model constructor) that
   * succeeds ends with brho matching the momentum, every component at its
   * arc position measured from the starting z, and an open-frame depth
   * equal to the number of frame-opening names left on the stack.
   */
  lemma FreshBuild(cfg: Config, momentum: real, z0: real, rows: seq<Row>)
    requires Build(cfg, Start(momentum, z0, []), rows).Ok?
    ensures var t := Build(cfg, Start(momentum, z0, []), rows).value;
            && RigidityCurrent(t)
            && PositionsConsistent(t, z0)
            && FramesMatch(t, cfg.honMadStructs)
            && |t.model.open| == OpenCount(t.frameStack, cfg.honMadStructs)
  {
    var s := Start(momentum, z0, []);
    BuildKeepsRigidity(cfg, s, rows);
    BuildKeepsPositions(cfg, s, rows, z0);
    BuildKeepsFrames(cfg, s, rows);
    FrameDepth(Build(cfg, s, rows).value.frameStack, cfg.honMadStructs);
  }
}
