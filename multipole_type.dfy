/**
 * Classification of a generic MULTIPOLE row by its coefficients. The normal
 * coefficient columns K4L, K3L, ..., K0L are scanned from the highest order
 * down; any non-zero skew coefficient met on the way ends the scan with
 * NOTIMPLEMENTED. After the scan the number of non-zero normal coefficients
 * and the lowest such order decide between DRIFT, MULTIPOLE (a thin
 * element), the single-order magnet and NOTIMPLEMENTED.
 */
module MultipoleClassifier {
  import opened Wrappers
  import opened MadTable
  import opened TypeFactory

  /** The keyword of a thick magnet whose only coefficient is of order n. */
  const OrderNames: seq<string> := ["SBEND", "QUADRUPOLE", "SEXTUPOLE", "OCTUPOLE", "DECAPOLE"]

  predicate NormalNonZero(r: Row, n: nat)
    requires n < 5
  {
    HasCol(r, NormalNames[n]) && r.values[NormalNames[n]] != 0.0
  }

  /** A skew column counts only when the table has it (it is optional). */
  predicate SkewNonZero(r: Row, n: nat)
    requires n < 5
  {
    HasCol(r, SkewNames[n]) && r.values[SkewNames[n]] != 0.0
  }

  predicate NoSkew(r: Row) {
    forall j :: 0 <= j < 5 ==> !SkewNonZero(r, j)
  }

  /** How many of the orders n..4 have a non-zero normal coefficient. */
  function CountNonZero(r: Row, n: nat): nat
    requires n <= 5
    decreases 5 - n
  {
    if n == 5 then 0 else (if NormalNonZero(r, n) then 1 else 0) + CountNonZero(r, n + 1)
  }

  /** Where the scan stands: stopped on a skew coefficient, or still counting. */
  datatype Scan = SkewFound | Counted(count: nat, lowest: int)

  /**
   * The scan over orders 4, 3, ..., n. Reading a missing normal column is
   * an error; while counting, `lowest` is the lowest non-zero order seen so
   * far (-1 for none).
   */
  function ScanFrom(r: Row, n: nat): (s: Outcome<Scan>)
    requires n <= 5
    decreases 5 - n
    ensures s.Err? ==> s.error.MissingColumn?
    ensures s.Ok? && s.value.Counted? ==>
              && (forall j :: n <= j < 5 ==> HasCol(r, NormalNames[j]) && !SkewNonZero(r, j))
              && s.value.count == CountNonZero(r, n)
              && (s.value.count == 0 <==> s.value.lowest == -1)
              && (s.value.count > 0 ==>
                    && n <= s.value.lowest < 5 && NormalNonZero(r, s.value.lowest)
                    && forall j :: n <= j < s.value.lowest ==> !NormalNonZero(r, j))
    ensures s.Ok? && s.value.SkewFound? ==> exists j :: n <= j < 5 && SkewNonZero(r, j)
  {
    if n == 5 then Ok(Counted(0, -1))
    else
      var above :- ScanFrom(r, n + 1);
      if above.SkewFound? then Ok(SkewFound)
      else
        var k :- GetD(r, NormalNames[n]);
        var counted := if k != 0.0 then Counted(above.count + 1, n) else above;
        if SkewNonZero(r, n) then Ok(SkewFound)
        else Ok(counted)
  }

  /** The keyword a MULTIPOLE row is rewritten to. */
  function MultipoleType(r: Row): (t: Outcome<string>)
    ensures t.Ok? ==> t.value in {"NOTIMPLEMENTED", "DRIFT", "MULTIPOLE", "SBEND", "QUADRUPOLE",
                                  "SEXTUPOLE", "OCTUPOLE", "DECAPOLE"}
    ensures t.Err? ==> t.error.MissingColumn?
  {
    var s :- ScanFrom(r, 0);
    if s.SkewFound? then Ok("NOTIMPLEMENTED")
    else if s.count == 0 then Ok("DRIFT")
    else
      var length :- GetD(r, "L");
      if length == 0.0 then Ok("MULTIPOLE")
      else if s.count == 1 then Ok(OrderNames[s.lowest])
      else Ok("NOTIMPLEMENTED")
  }

  // ---------------------------------------------------------------- the scan

  /** With every normal column of orders n..4 present the scan cannot fail. */
  lemma {:induction false} ScanSucceeds(r: Row, n: nat)
    requires n <= 5 && forall j :: n <= j < 5 ==> HasCol(r, NormalNames[j])
    ensures ScanFrom(r, n).Ok?
    decreases 5 - n
  {
    if n < 5 {
      ScanSucceeds(r, n + 1);
    }
  }

  /** A non-zero skew coefficient at an order the scan reaches stops it. */
  lemma {:induction false} ScanFindsSkew(r: Row, n: nat, j: nat)
    requires n <= j < 5 && SkewNonZero(r, j)
    requires forall i :: n <= i < 5 ==> HasCol(r, NormalNames[i])
    ensures ScanFrom(r, n) == Ok(SkewFound)
    decreases j - n
  {
    if n == j {
      ScanSucceeds(r, n + 1);
    } else {
      ScanFindsSkew(r, n + 1, j);
    }
  }

  /** An error or a skew stop at order n is the result of every longer scan. */
  lemma {:induction false} ScanSettled(r: Row, n: nat, m: nat)
    requires m <= n <= 5
    requires ScanFrom(r, n).Err? || ScanFrom(r, n) == Ok(SkewFound)
    ensures ScanFrom(r, m) == ScanFrom(r, n)
    decreases n - m
  {
    if m < n {
      ScanSettled(r, n, m + 1);
    }
  }

  lemma {:induction false} CountAtLeastOne(r: Row, n: nat, j: nat)
    requires n <= j < 5 && NormalNonZero(r, j)
    ensures CountNonZero(r, n) >= 1
    decreases j - n
  {
    if n < j {
      CountAtLeastOne(r, n + 1, j);
    }
  }

  lemma {:induction false} CountAtLeastTwo(r: Row, n: nat, i: nat, j: nat)
    requires n <= i < j < 5 && NormalNonZero(r, i) && NormalNonZero(r, j)
    ensures CountNonZero(r, n) >= 2
    decreases i - n
  {
    if n < i {
      CountAtLeastTwo(r, n + 1, i, j);
    } else {
      CountAtLeastOne(r, n + 1, j);
    }
  }

  lemma {:induction false} CountExactlyOne(r: Row, n: nat, m: nat)
    requires n <= m < 5 && NormalNonZero(r, m)
    requires forall j :: n <= j < 5 && j != m ==> !NormalNonZero(r, j)
    ensures CountNonZero(r, n) == 1
    decreases m - n
  {
    if n < m {
      CountExactlyOne(r, n + 1, m);
    } else {
      CountNone(r, n + 1);
    }
  }

  lemma {:induction false} CountNone(r: Row, n: nat)
    requires n <= 5 && forall j :: n <= j < 5 ==> !NormalNonZero(r, j)
    ensures CountNonZero(r, n) == 0
    decreases 5 - n
  {
    if n < 5 {
      CountNone(r, n + 1);
    }
  }

  // ---------------------------------------------------------------- the classification

  /** A non-zero skew coefficient gives NOTIMPLEMENTED, whatever the normal coefficients are. */
  lemma SkewIsNotImplemented(r: Row, j: nat)
    requires NormalsUpTo(r, 5) && j < 5 && SkewNonZero(r, j)
    ensures MultipoleType(r) == Ok("NOTIMPLEMENTED")
  {
    ScanFindsSkew(r, 0, j);
  }

  /** All normal coefficients zero and no skew: a drift, whatever L is. */
  lemma AllZeroIsDrift(r: Row)
    requires NormalsUpTo(r, 5) && NoSkew(r)
    requires forall j :: 0 <= j < 5 ==> !NormalNonZero(r, j)
    ensures MultipoleType(r) == Ok("DRIFT")
  {
    ScanSucceeds(r, 0);
  }

  /** Some normal coefficient non-zero, no skew, and L zero: a thin multipole. */
  lemma ThinIsMultipole(r: Row, j: nat)
    requires NormalsUpTo(r, 5) && NoSkew(r) && j < 5 && NormalNonZero(r, j)
    requires HasCol(r, "L") && r.values["L"] == 0.0
    ensures MultipoleType(r) == Ok("MULTIPOLE")
  {
    ScanSucceeds(r, 0);
    CountAtLeastOne(r, 0, j);
  }

  /** Exactly one non-zero normal coefficient, of order m, no skew, and L non-zero: that order's magnet. */
  lemma SingleOrderMagnet(r: Row, m: nat)
    requires NormalsUpTo(r, 5) && NoSkew(r) && m < 5 && NormalNonZero(r, m)
    requires forall j :: 0 <= j < 5 && j != m ==> !NormalNonZero(r, j)
    requires HasCol(r, "L") && r.values["L"] != 0.0
    ensures MultipoleType(r) == Ok(OrderNames[m])
  {
    ScanSucceeds(r, 0);
    CountExactlyOne(r, 0, m);
  }

  /** Two or more non-zero normal coefficients, no skew, and L non-zero: NOTIMPLEMENTED. */
  lemma SeveralOrdersNotImplemented(r: Row, i: nat, j: nat)
    requires NormalsUpTo(r, 5) && NoSkew(r) && i < j < 5 && NormalNonZero(r, i) && NormalNonZero(r, j)
    requires HasCol(r, "L") && r.values["L"] != 0.0
    ensures MultipoleType(r) == Ok("NOTIMPLEMENTED")
  {
    ScanSucceeds(r, 0);
    CountAtLeastTwo(r, 0, i, j);
  }

  /**
   * The scan as the interface runs it: a loop from order 4 down to 0 that
   * counts non-zero normal coefficients and remembers the lowest, returning
   * early on a non-zero skew coefficient.
   */
  method GetMultipoleType(r: Row) returns (t: Outcome<string>)
    ensures t == MultipoleType(r)
  {
    var lowest := -1;
    var count := 0;
    var n := 4;
    while n >= 0
      invariant -1 <= n <= 4
      invariant ScanFrom(r, n + 1) == Ok(Counted(count, lowest))
      decreases n + 1
    {
      if NormalNames[n] !in r.values {
        ScanSettled(r, n, 0);
        return Err(MissingColumn(NormalNames[n]));
      }
      if r.values[NormalNames[n]] != 0.0 {
        count := count + 1;
        lowest := n;
      }
      if SkewNames[n] in r.values && r.values[SkewNames[n]] != 0.0 {
        ScanSettled(r, n, 0);
        return Ok("NOTIMPLEMENTED");
      }
      n := n - 1;
    }
    if count == 0 {
      return Ok("DRIFT");
    }
    if "L" !in r.values {
      return Err(MissingColumn("L"));
    }
    var length := r.values["L"];
    if length == 0.0 {
      return Ok("MULTIPOLE");
    }
    if count == 1 && length != 0.0 {
      return Ok(OrderNames[lowest]);
    }
    return Ok("NOTIMPLEMENTED");
  }
}
