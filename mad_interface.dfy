/**
 * The MAD interface object: the settings that steer the build, and the
 * state a build leaves behind (reference momentum, arc position, stack of
 * LINE names). ConstructModel runs through a table row by row, as Build
 * describes.
 */
module MadInterfaces {
  import opened Wrappers
  import opened MadTable
  import opened Components
  import TypeFactory
  import MultipoleClassifier
  import opened LatticeBuilder

  /** MAD types built as drifts unless told otherwise. */
  const DefaultDriftTypes: set<string> :=
    {"INSTRUMENT", "PLACEHOLDER", "VMONITOR", "HMONITOR", "KICKER", "TKICKER", "MATRIX"}

  class MADInterface {
    var momentum: real
    var z: real
    var frameStack: seq<string>
    var modelconstr: Option<ModelConstruction>
    var flatLattice: bool
    var honMadStructs: bool
    var incSR: bool
    var singleCellRF: bool
    var driftTypes: set<string>
    var zeroLengths: set<string>

    function Settings(): Config
      reads this
    {
      Config(flatLattice, honMadStructs, incSR, singleCellRF, driftTypes, zeroLengths)
    }

    /** A new interface at reference momentum p0 (GeV/c), with the default type sets. */
    constructor (p0: real)
      ensures momentum == p0 && z == 0.0 && frameStack == [] && modelconstr == None
      ensures !flatLattice && !honMadStructs && !incSR && !singleCellRF
      ensures driftTypes == DefaultDriftTypes && zeroLengths == {"RCOLLIMATOR"}
    {
      momentum := p0;
      z := 0.0;
      frameStack := [];
      modelconstr := None;
      flatLattice := false;
      honMadStructs := false;
      incSR := false;
      singleCellRF := false;
      driftTypes := {};
      zeroLengths := {};
      new;
      TreatTypeAsDrift("INSTRUMENT");
      TreatTypeAsDrift("PLACEHOLDER");
      TreatTypeAsDrift("VMONITOR");
      TreatTypeAsDrift("HMONITOR");
      TreatTypeAsDrift("KICKER");
      TreatTypeAsDrift("TKICKER");
      TreatTypeAsDrift("MATRIX");
      IgnoreZeroLengthType("RCOLLIMATOR");
    }

    method TreatTypeAsDrift(madType: string)
      modifies this`driftTypes
      ensures driftTypes == old(driftTypes) + {madType}
    {
      driftTypes := driftTypes + {madType};
    }

    method IgnoreZeroLengthType(madType: string)
      modifies this`zeroLengths
      ensures zeroLengths == old(zeroLengths) + {madType}
    {
      zeroLengths := zeroLengths + {madType};
    }

    /**
     * Rewrite the keyword of row `index` in place, rule after rule; the
     * result is the final keyword. No other row, and nothing but the
     * keyword, changes.
     */
    method TypeOverrides(table: DataTable, index: nat) returns (res: Outcome<string>)
      requires index < |table.rows|
      modifies table
      ensures res == OverriddenKeyword(Settings(), old(table.rows[index]))
      ensures |table.rows| == |old(table.rows)|
      ensures forall j :: 0 <= j < |table.rows| && j != index ==> table.rows[j] == old(table.rows[j])
      ensures table.rows[index] == old(table.rows[index]).(keyword := table.rows[index].keyword)
      ensures res.Ok? ==> table.rows[index].keyword == res.value
    {
      var row := table.rows[index];
      var keyword := row.keyword;
      if keyword in driftTypes {
        table.SetKeyword(index, "DRIFT");
      }
      if keyword == "LCAV" {
        table.SetKeyword(index, "RFCAVITY");
      }
      if keyword == "RCOLLIMATOR" || keyword == "ECOLLIMATOR" {
        table.SetKeyword(index, "COLLIMATOR");
      }
      if keyword == "RBEND" {
        if "K0L" !in row.values {
          return Err(MissingColumn("K0L"));
        }
        if row.values["K0L"] != 0.0 {
          table.SetKeyword(index, "SBEND");
        }
      }
      if singleCellRF && table.rows[index].keyword == "RFCAVITY" {
        table.SetKeyword(index, "RFCAVITY_SingleCell");
      }
      if keyword == "MULTIPOLE" {
        var classified := MultipoleClassifier.GetMultipoleType(row);
        if classified.Err? {
          return Err(classified.error);
        }
        table.SetKeyword(index, classified.value);
      }
      return Ok(table.rows[index].keyword);
    }

    /** Append the components in order, each at the running position z, which then grows by its length. */
    method PlaceComponents(cs: seq<Component>, ghost brho: real)
      requires modelconstr.Some?
      modifies this`z, this`modelconstr
      ensures modelconstr.Some?
      ensures BuildState(momentum, brho, z, frameStack, modelconstr.value)
              == Place(BuildState(momentum, brho, old(z), frameStack, old(modelconstr.value)), cs)
    {
      ghost var start := BuildState(momentum, brho, z, frameStack, modelconstr.value);
      var j := 0;
      while j < |cs|
        invariant 0 <= j <= |cs| && modelconstr.Some?
        invariant BuildState(momentum, brho, z, frameStack, modelconstr.value) == Place(start, cs[..j])
      {
        var c := cs[j];
        modelconstr := Some(modelconstr.value.(entries := modelconstr.value.entries + [Placed(c, z)]));
        z := z + Length(c);
        assert cs[..j + 1][..j] == cs[..j];
        j := j + 1;
      }
      assert cs[..|cs|] == cs;
    }

    /** One pass of the construction loop over row i; the result is the rigidity for the next row. */
    method ApplyRow(table: DataTable, i: nat, brho: real) returns (res: Outcome<real>)
      requires i < |table.rows| && modelconstr.Some?
      modifies this`momentum, this`z, this`frameStack, this`modelconstr, table
      ensures var t := Step(Settings(), BuildState(old(momentum), brho, old(z), old(frameStack), old(modelconstr.value)),
                            old(table.rows[i]));
              && (res.Ok? <==> t.Ok?)
              && (res.Err? ==> res.error == t.error)
              && (res.Ok? ==> modelconstr.Some? && BuildState(momentum, res.value, z, frameStack, modelconstr.value) == t.value)
      ensures |table.rows| == |old(table.rows)|
      ensures forall j :: 0 <= j < |table.rows| && j != i ==> table.rows[j] == old(table.rows[j])
    {
      var row := table.rows[i];
      var keyword := row.keyword;
      if "L" !in row.values {
        return Err(MissingColumn("L"));
      }
      var length := row.values["L"];
      if length == 0.0 && keyword in zeroLengths {
        return Ok(brho);
      }
      var rewritten := TypeOverrides(table, i);
      if rewritten.Err? {
        return Err(rewritten.error);
      }
      if keyword == "LINE" {
        var done := LineRow(row.name, brho);
        return if done.Err? then Err(done.error) else Ok(brho);
      } else if keyword == "SROT" {
        modelconstr := Some(modelconstr.value.(entries := modelconstr.value.entries + [SrotFrame(row.name, length)]));
        return Ok(brho);
      }
      res := ComponentRow(table, i, brho, row, rewritten.value, length);
    }

    /** A LINE row: close the frame of the name on top of the stack, or push the name and open its frame. */
    method LineRow(name: string, ghost brho: real) returns (res: Outcome<bool>)
      requires modelconstr.Some?
      modifies this`frameStack, this`modelconstr
      ensures var t := LineStep(Settings(), BuildState(momentum, brho, z, old(frameStack), old(modelconstr.value)), name);
              && (res.Ok? <==> t.Ok?)
              && (res.Err? ==> res.error == t.error)
              && (res.Ok? ==> modelconstr.Some? && BuildState(momentum, brho, z, frameStack, modelconstr.value) == t.value)
    {
      if !flatLattice {
        if |frameStack| > 0 && name == frameStack[|frameStack| - 1] {
          frameStack := frameStack[..|frameStack| - 1];
          var mc := EndFrame(modelconstr.value, name, honMadStructs);
          if mc.Err? {
            return Err(mc.error);
          }
          modelconstr := Some(mc.value);
        } else {
          frameStack := frameStack + [name];
          var mc := ConstructNewFrame(modelconstr.value, name, honMadStructs);
          if mc.Err? {
            return Err(mc.error);
          }
          modelconstr := Some(mc.value);
        }
      }
      return Ok(true);
    }

    /** A row that builds components, after its keyword has been rewritten in the table. */
    method ComponentRow(table: DataTable, i: nat, brho: real, row: Row, keyword: string, length: real)
      returns (res: Outcome<real>)
      requires i < |table.rows| && table.rows[i] == row.(keyword := keyword) && modelconstr.Some?
      modifies this`momentum, this`z, this`modelconstr
      ensures var t := ComponentStep(Settings(), BuildState(old(momentum), brho, old(z), frameStack, old(modelconstr.value)),
                                     row, keyword, length);
              && (res.Ok? <==> t.Ok?)
              && (res.Err? ==> res.error == t.error)
              && (res.Ok? ==> modelconstr.Some? && BuildState(momentum, res.value, z, frameStack, modelconstr.value) == t.value)
    {
      ghost var s := BuildState(momentum, brho, z, frameStack, modelconstr.value);
      ghost var radiated := RadiateIfBend(Settings(), s, row, length);
      var components := TypeFactory.GetInstance(table, brho, i);
      if components.Err? {
        return Err(components.error);
      }
      var next := brho;
      if incSR && (row.keyword == "SBEND" || row.keyword == "RBEND") {
        if "ANGLE" !in row.values {
          return Err(MissingColumn("ANGLE"));
        }
        if length == 0.0 {
          return Err(NonFiniteField(row.name));
        }
        momentum := momentum - SRdE(row.values["ANGLE"] / length, length, momentum);
        next := Rigidity(momentum);
      }
      assert radiated == Ok(BuildState(momentum, next, z, frameStack, modelconstr.value));
      assert ComponentStep(Settings(), s, row, keyword, length) == Ok(Place(radiated.value, components.value));
      PlaceComponents(components.value, next);
      return Ok(next);
    }

    /**
     * Build the model from the rows of a table: the entries given to a fresh
     * model constructor, which is then released. The momentum, arc position
     * and LINE stack carry over to the next call.
     */
    method ConstructModel(rows: seq<Row>) returns (result: Outcome<seq<Entry>>)
      modifies this`momentum, this`z, this`frameStack, this`modelconstr
      ensures var b := Build(old(Settings()), Start(old(momentum), old(z), old(frameStack)), rows);
              && (result.Ok? <==> b.Ok?)
              && (result.Err? ==> result.error == b.error)
              && (result.Ok? ==> result.value == b.value.model.entries && momentum == b.value.momentum
                                 && z == b.value.z && frameStack == b.value.frameStack && modelconstr == None)
    {
      var table := new DataTable(rows);
      modelconstr := Some(EmptyConstruction);
      var brho := Rigidity(momentum);
      ghost var cfg := Settings();
      ghost var start := Start(momentum, z, frameStack);
      var i := 0;
      while i < |rows|
        invariant 0 <= i <= |rows|
        invariant |table.rows| == |rows| && forall j :: i <= j < |rows| ==> table.rows[j] == rows[j]
        invariant modelconstr.Some? && Settings() == cfg
        invariant Build(cfg, start, rows[..i]) == Ok(BuildState(momentum, brho, z, frameStack, modelconstr.value))
      {
        BuildOneMore(cfg, start, rows, i);
        var r := ApplyRow(table, i, brho);
        if r.Err? {
          BuildStopsAt(cfg, start, rows, i + 1);
          return Err(r.error);
        }
        brho := r.value;
        i := i + 1;
      }
      assert rows[..|rows|] == rows;
      result := Ok(modelconstr.value.entries);
      modelconstr := None;
    }
  }
}
