/** End to end: the tables that printable.py generates, read by the C++
    is_printable, describe exactly the escaped code points. */
module Printable {
  import opened PrintableRanges
  import opened PrintableTables

  datatype Plane = Plane(uppers: seq<Upper>, lowers: seq<nat>, normal: seq<nat>)

  datatype Tables = Tables(plane0: Plane, plane1: Plane, extra: seq<Run>)

  predicate ValidPlane(p: Plane) {
    Total(p.uppers) == |p.lowers| && UppersIncrease(p.uppers) && Readable(p.normal)
  }

  predicate Valid(t: Tables) { ValidPlane(t.plane0) && ValidPlane(t.plane1) }

  // ------------------------------------------------------------ the reader

  predicate PlanePrintable(p: Plane, x: nat)
    requires ValidPlane(p)
  {
    !Hit(p.uppers, p.lowers, x) && Walk(LensOf(p.normal), x, true)
  }

  predicate Printable(t: Tables, cp: nat)
    requires Valid(t)
  {
    if cp < 0x10000 then PlanePrintable(t.plane0, cp)
    else if cp < 0x20000 then PlanePrintable(t.plane1, cp - 0x10000)
    else !CoversRun(t.extra, cp) && cp < NUM_CODEPOINTS
  }

  method IsPlanePrintable(x: nat, p: Plane) returns (r: bool)
    requires ValidPlane(p)
    ensures r <==> PlanePrintable(p, x)
  {
    var found := FindSingleton(x, p.uppers, p.lowers);
    if found { return false; }
    r := WalkNormal(x, p.normal);
  }

  method IsPrintable(t: Tables, cp: nat) returns (r: bool)
    requires Valid(t)
    ensures r <==> Printable(t, cp)
  {
    if cp < 0x10000 {
      r := IsPlanePrintable(cp, t.plane0);
      return;
    }
    if cp < 0x20000 {
      r := IsPlanePrintable(cp % 0x10000, t.plane1);
      return;
    }
    for i := 0 to |t.extra|
      invariant forall k :: 0 <= k < i ==> !(t.extra[k].start <= cp < t.extra[k].start + t.extra[k].count)
    {
      if t.extra[i].start <= cp && cp < t.extra[i].start + t.extra[i].count { return false; }
    }
    return cp < NUM_CODEPOINTS;
  }

  // --------------------------------------------------- planes against runs

  lemma CoversSome(rs: seq<Range>, x: nat) returns (i: nat)
    requires Runs(rs) && Covers(rs, x)
    ensures i < |rs| && rs[i].lo <= x < rs[i].hi && Sound(rs[i]) && CoversKind(rs, KindOf(rs[i]), x)
  {
    i :| 0 <= i < |rs| && rs[i].lo <= x < rs[i].hi;
  }

  lemma CoversOfKind(rs: seq<Range>, k: Kind, x: nat) returns (i: nat)
    requires Runs(rs) && CoversKind(rs, k, x)
    ensures i < |rs| && rs[i].lo <= x < rs[i].hi && Sound(rs[i]) && KindOf(rs[i]) == k && Covers(rs, x)
  {
    i :| 0 <= i < |rs| && KindOf(rs[i]) == k && rs[i].lo <= x < rs[i].hi;
  }

  lemma LowPlane(rs: seq<Range>, x: nat)
    requires Runs(rs) && x < CUTOFF
    ensures Covers(rs, x) <==> CoversKind(rs, Single0, x) || CoversKind(rs, Normal0, x)
  {
    if Covers(rs, x) {
      var i := CoversSome(rs, x);
      KindPlane(rs[i]);
    }
  }

  lemma MiddlePlane(rs: seq<Range>, x: nat)
    requires Runs(rs) && CUTOFF <= x < 2 * CUTOFF
    ensures Covers(rs, x) <==> CoversKind(rs, Single1, x) || CoversKind(rs, Normal1, x)
  {
    if Covers(rs, x) {
      var i := CoversSome(rs, x);
      KindPlane(rs[i]);
    }
  }

  /** Above, everything is an extra range but a short run at 0x20000. */
  lemma HighPlanes(rs: seq<Range>, x: nat)
    requires Runs(rs) && 2 * CUTOFF <= x
    ensures Covers(rs, x) <==> CoversKind(rs, Extra, x) || CoversKind(rs, Single0, x)
    ensures CoversKind(rs, Single0, x) ==> CoversKind(rs, Single0, 2 * CUTOFF)
  {
    if Covers(rs, x) {
      var i := CoversSome(rs, x);
      KindPlane(rs[i]);
    }
    if CoversKind(rs, Single0, x) {
      var i := CoversOfKind(rs, Single0, x);
      KindPlane(rs[i]);
    }
  }

  lemma SameRun(rs: seq<Range>, i: nat, j: nat, x: nat)
    requires Runs(rs) && i < |rs| && j < |rs| && rs[i].lo <= x < rs[i].hi && rs[j].lo <= x < rs[j].hi
    ensures i == j
  {}

  lemma OneRunOnly(rs: seq<Range>, x: nat)
    requires Runs(rs) && CoversKind(rs, Single0, x)
    ensures !CoversKind(rs, Extra, x)
  {
    var i := CoversOfKind(rs, Single0, x);
    forall j | 0 <= j < |rs| && rs[j].lo <= x < rs[j].hi ensures j == i {
      SameRun(rs, i, j, x);
    }
  }

  /** A short run starts at 0x20000, seen from the covered points alone. */
  lemma ShortRunAtSplit(rs: seq<Range>)
    requires Runs(rs)
    ensures CoversKind(rs, Single0, 0x20000) <==>
            Covers(rs, 0x20000) && !(Covers(rs, 0x20001) && Covers(rs, 0x20002))
  {
    if Covers(rs, 0x20000) {
      var i := CoversSome(rs, 0x20000);
      KindPlane(rs[i]);
      NextCovered(rs, i, 0x20001);
      if rs[i].hi > 0x20001 { NextCovered(rs, i, 0x20002); }
      if rs[i].hi > 0x20002 {
        assert CoversKind(rs, Extra, 0x20000);
        if CoversKind(rs, Single0, 0x20000) { OneRunOnly(rs, 0x20000); }
      }
    } else if CoversKind(rs, Single0, 0x20000) {
      var i := CoversOfKind(rs, Single0, 0x20000);
    }
  }

  /** The point after a run is covered only if it is a split point. */
  lemma NextCovered(rs: seq<Range>, i: nat, x: nat)
    requires Runs(rs) && i < |rs| && rs[i].lo < x <= rs[i].hi && !IsSplit(x)
    ensures Covers(rs, x) <==> x < rs[i].hi
  {
    forall j | 0 <= j < |rs| && rs[j].lo <= x < rs[j].hi ensures i == j {
      RunOfNext(rs, i, j, x);
    }
  }

  lemma RunOfNext(rs: seq<Range>, i: nat, j: nat, x: nat)
    requires Runs(rs) && i < |rs| && rs[i].lo < x <= rs[i].hi && !IsSplit(x)
    requires j < |rs| && rs[j].lo <= x < rs[j].hi
    ensures i == j
  {}

  // ------------------------------------------------- when a length is too long

  /** Three escaped points in a row, in the plane that starts at `base`. */
  predicate Three(rows: seq<Row>, base: nat, y: nat)
    requires rows != []
  {
    base <= y && y + 2 < base + CUTOFF && EscapedBy(rows, y) && EscapedBy(rows, y + 1) && EscapedBy(rows, y + 2)
  }

  /** The point belongs to a run of at least three. */
  ghost predicate LongRunAt(rows: seq<Row>, base: nat, x: nat)
    requires rows != []
  {
    exists y: nat :: y <= x <= y + 2 && Three(rows, base, y)
  }

  ghost predicate AllEscaped(rows: seq<Row>, a: nat)
    requires rows != []
  {
    forall x :: a <= x < a + 0x8000 ==> EscapedBy(rows, x)
  }

  ghost predicate NoLongRun(rows: seq<Row>, base: nat, a: nat)
    requires rows != []
  {
    forall x :: a <= x < a + 0x8000 ==> !LongRunAt(rows, base, x)
  }

  /** Somewhere in the plane 0x8000 points in a row are escaped, or 0x8000 points
      without a long run precede a long run. */
  ghost predicate TooLong(rows: seq<Row>, base: nat)
    requires rows != []
  {
    exists a: nat :: base <= a && a + 0x8000 <= base + CUTOFF
      && (AllEscaped(rows, a) || (NoLongRun(rows, base, a) && LongRunAt(rows, base, a + 0x8000)))
  }

  ghost predicate RunsOfRows(rs: seq<Range>, rows: seq<Row>)
    requires rows != []
  {
    Runs(rs) && forall x :: Covers(rs, x) <==> EscapedBy(rows, x)
  }

  lemma NormalIsLong(rs: seq<Range>, rows: seq<Row>, k: Kind, x: nat)
    requires rows != [] && RunsOfRows(rs, rows) && (k.Normal0? || k.Normal1?) && CoversKind(rs, k, x)
    ensures LongRunAt(rows, Offset(k), x)
  {
    var i := CoversOfKind(rs, k, x);
    KindPlane(rs[i]);
    var y := if x <= rs[i].hi - 3 then x else rs[i].hi - 3;
    assert Covers(rs, y) && Covers(rs, y + 1) && Covers(rs, y + 2);
    assert Three(rows, Offset(k), y);
  }

  lemma LongIsNormal(rs: seq<Range>, rows: seq<Row>, k: Kind, x: nat)
    requires rows != [] && RunsOfRows(rs, rows) && (k.Normal0? || k.Normal1?) && LongRunAt(rows, Offset(k), x)
    ensures CoversKind(rs, k, x)
  {
    var y: nat :| y <= x <= y + 2 && Three(rows, Offset(k), y);
    assert Covers(rs, y);
    var i := CoversSome(rs, y);
    NextCovered(rs, i, y + 1);
    NextCovered(rs, i, y + 2);
    KindPlane(rs[i]);
    assert rs[i].lo <= x < rs[i].hi && KindOf(rs[i]) == k;
  }

  /** The list of one plane covers exactly the points of long runs. */
  lemma LengthsAreLong(rs: seq<Range>, rows: seq<Row>, k: Kind, x: nat)
    requires rows != [] && RunsOfRows(rs, rows) && (k.Normal0? || k.Normal1?)
    ensures CoversRun(Lengths(rs, k), x) <==> LongRunAt(rows, Offset(k), x + Offset(k))
  {
    LengthsCover(rs, k, x);
    if CoversKind(rs, k, x + Offset(k)) { NormalIsLong(rs, rows, k, x + Offset(k)); }
    if LongRunAt(rows, Offset(k), x + Offset(k)) { LongIsNormal(rs, rows, k, x + Offset(k)); }
  }

  lemma EscapedIsLong(rows: seq<Row>, base: nat, a: nat, x: nat)
    requires rows != [] && AllEscaped(rows, a) && base <= a <= x < a + 0x8000 <= base + CUTOFF
    ensures LongRunAt(rows, base, x)
  {
    var y := if x + 2 < a + 0x8000 then x else a + 0x7ffd;
    assert Three(rows, base, y);
  }

  lemma TooLongGivesWindow(rs: seq<Range>, rows: seq<Row>, k: Kind)
    requires rows != [] && RunsOfRows(rs, rows) && (k.Normal0? || k.Normal1?) && Separated(Lengths(rs, k))
    requires Maximal(Lengths(rs, k)) && TooLong(rows, Offset(k))
    ensures !Fits(Lengths(rs, k), 0)
  {
    var base, ns := Offset(k), Lengths(rs, k);
    var a: nat :| base <= a && a + 0x8000 <= base + CUTOFF
      && (AllEscaped(rows, a) || (NoLongRun(rows, base, a) && LongRunAt(rows, base, a + 0x8000)));
    forall x: nat { LengthsAreLong(rs, rows, k, x); }
    if AllEscaped(rows, a) {
      forall x | a - base <= x < a - base + 0x8000 ensures CoversRun(ns, x) { EscapedIsLong(rows, base, a, x + base); }
      assert FullWindow(ns, a - base);
    } else {
      forall x | a - base <= x < a - base + 0x8000 ensures !CoversRun(ns, x) {
        assert !LongRunAt(rows, base, x + base);
      }
      assert GapWindow(ns, a - base);
    }
    WindowTooLong(ns, 0, a - base);
  }

  lemma WindowGivesTooLong(rs: seq<Range>, rows: seq<Row>, k: Kind)
    requires rows != [] && RunsOfRows(rs, rows) && (k.Normal0? || k.Normal1?) && Separated(Lengths(rs, k))
    requires Maximal(Lengths(rs, k)) && !Fits(Lengths(rs, k), 0)
    ensures TooLong(rows, Offset(k))
  {
    var base, ns := Offset(k), Lengths(rs, k);
    var a := TooLongWindow(ns, 0);
    forall x: nat { LengthsAreLong(rs, rows, k, x); }
    if FullWindow(ns, a) {
      forall x | a + base <= x < a + base + 0x8000 ensures EscapedBy(rows, x) && x < base + CUTOFF {
        assert CoversRun(ns, x - base);
        assert LongRunAt(rows, base, x);
      }
      assert CoversRun(ns, a + 0x7fff) && LongRunAt(rows, base, a + 0x7fff + base);
      assert AllEscaped(rows, a + base);
    } else {
      assert LongRunAt(rows, base, a + 0x8000 + base);
      forall x | a + base <= x < a + base + 0x8000 ensures !LongRunAt(rows, base, x) {
        assert !CoversRun(ns, x - base);
      }
      assert NoLongRun(rows, base, a + base) && LongRunAt(rows, base, a + base + 0x8000);
    }
  }

  /** The length assertion fails for the plane exactly on such rows. */
  lemma TooLongExactly(rs: seq<Range>, rows: seq<Row>, k: Kind)
    requires rows != [] && RunsOfRows(rs, rows) && (k.Normal0? || k.Normal1?) && Separated(Lengths(rs, k))
    ensures Fits(Lengths(rs, k), 0) <==> !TooLong(rows, Offset(k))
  {
    LengthsSeparated(rs, k);
    if TooLong(rows, Offset(k)) { TooLongGivesWindow(rs, rows, k); }
    if !Fits(Lengths(rs, k), 0) { WindowGivesTooLong(rs, rows, k); }
  }

  // ------------------------------------------------------------ the generator

  datatype BuiltPlane = Built(plane: Plane) | TooLongRun

  /** Both compressors on the lists of one plane. */
  method BuildPlane(singletons: seq<nat>, normal: seq<Run>) returns (r: BuiltPlane)
    requires Sparse(singletons) && Separated(normal)
    ensures r.Built? <==> Fits(normal, 0)
    ensures r.Built? ==> ValidPlane(r.plane) && BytesOnly(r.plane)
    ensures r.Built? ==> (UpperBytes(r.plane) <==> InPlane(singletons))
    ensures r.Built? ==> forall x :: PlanePrintable(r.plane, x) <==> x !in singletons && !CoversRun(normal, x)
  {
    var uppers, lowers := CompressSingletons(singletons);
    var c := CompressNormal(normal);
    if c.TooLong? { return TooLongRun; }
    var plane := Plane(uppers, lowers, Flatten(c.entries));
    CountsFit(uppers, lowers);
    LensOfBytes(Gaps(normal, 0));
    GapsFit(normal, 0);
    BytesFit(Gaps(normal, 0));
    if InPlane(singletons) { UppersFit(uppers, lowers); }
    if UpperBytes(plane) { UppersFitOnly(uppers, lowers); }
    forall x ensures PlanePrintable(plane, x) <==> x !in singletons && !CoversRun(normal, x) {
      HitIsMember(uppers, lowers, x);
      WalkMeaning(normal, 0, x);
    }
    return Built(plane);
  }

  /** Lower bytes, run bytes and counts fit the unsigned char of the tables. */
  predicate BytesOnly(p: Plane) {
    AllBytes(p.lowers) && AllBytes(p.normal) && forall i :: 0 <= i < |p.uppers| ==> p.uppers[i].count <= 171
  }

  predicate UpperBytes(p: Plane) {
    forall i :: 0 <= i < |p.uppers| ==> p.uppers[i].upper < 256
  }

  lemma PointsInPlane(rs: seq<Range>, k: Kind)
    requires Runs(rs) && (k.Single0? || k.Single1?)
    ensures InPlane(Points(rs, k)) <==> k.Single1? || !CoversKind(rs, Single0, 0x20000)
  {
    var s := Points(rs, k);
    if k.Single0? { PointsMember(rs, k, 0x20000); }
    forall j | 0 <= j < |s| && (k.Single1? || !CoversKind(rs, Single0, 0x20000)) ensures s[j] < 0x10000 {
      PointsMember(rs, k, s[j]);
      var i := CoversOfKind(rs, k, s[j] + Offset(k));
      KindPlane(rs[i]);
    }
  }

  datatype Generated = Generated(tables: Tables) | MissingLastError | LengthError

  /** Reading the tables answers "printable" exactly on the code points below
      0x110000 that are not escaped. */
  ghost predicate Faithful(t: Tables, rows: seq<Row>)
    requires Valid(t) && rows != []
  {
    forall cp: nat :: Printable(t, cp) <==> cp < NUM_CODEPOINTS && !EscapedBy(rows, cp)
  }

  /** The escaped run that starts at 0x20000 has one or two points. */
  predicate ShortRunAt20000(rows: seq<Row>)
    requires rows != []
  {
    EscapedBy(rows, 0x20000) && !(EscapedBy(rows, 0x20001) && EscapedBy(rows, 0x20002))
  }

  /** What the tables say, in terms of the runs they were made from. */
  ghost predicate Describes(t: Tables, rs: seq<Range>)
    requires Valid(t)
  {
    && (forall x :: PlanePrintable(t.plane0, x) <==> x !in Points(rs, Single0) && !CoversRun(Lengths(rs, Normal0), x))
    && (forall x :: PlanePrintable(t.plane1, x) <==> x !in Points(rs, Single1) && !CoversRun(Lengths(rs, Normal1), x))
    && t.extra == Lengths(rs, Extra)
  }

  /** Below 0x20000 the answer is always right; above, up to a short run. */
  lemma PrintableMeaning(t: Tables, rs: seq<Range>, cp: nat)
    requires Runs(rs) && Valid(t) && Describes(t, rs)
    ensures Printable(t, cp) <==>
            cp < NUM_CODEPOINTS && (!Covers(rs, cp) || (cp >= 0x20000 && CoversKind(rs, Single0, cp)))
  {
    if cp < 0x10000 {
      LowPlane(rs, cp);
      PointsMember(rs, Single0, cp);
      LengthsCover(rs, Normal0, cp);
    } else if cp < 0x20000 {
      MiddlePlane(rs, cp);
      PointsMember(rs, Single1, cp - 0x10000);
      LengthsCover(rs, Normal1, cp - 0x10000);
    } else {
      HighPlanes(rs, cp);
      LengthsCover(rs, Extra, cp);
      if CoversKind(rs, Single0, cp) { OneRunOnly(rs, cp); }
    }
  }

  /** What the reader answers, wrong answers included: exactly the points of a
      short run at 0x20000 are taken for printable. */
  ghost predicate Answers(t: Tables, rows: seq<Row>)
    requires Valid(t) && rows != []
  {
    forall cp: nat :: Printable(t, cp) <==>
      cp < NUM_CODEPOINTS && (!EscapedBy(rows, cp) || (ShortRunAt20000(rows) && 0x20000 <= cp <= 0x20001))
  }

  /** The points of short runs above 0x20000 are those of the run at 0x20000. */
  lemma ShortRunPoints(rs: seq<Range>, rows: seq<Row>, cp: nat)
    requires rows != [] && RunsOfRows(rs, rows) && cp >= 0x20000
    ensures CoversKind(rs, Single0, cp) <==> EscapedBy(rows, cp) && ShortRunAt20000(rows) && cp <= 0x20001
  {
    ShortRunAtSplit(rs);
    if CoversKind(rs, Single0, cp) {
      var i := CoversOfKind(rs, Single0, cp);
      KindPlane(rs[i]);
      HighPlanes(rs, cp);
    }
    if EscapedBy(rows, 0x20001) && ShortRunAt20000(rows) {
      var i := CoversOfKind(rs, Single0, 0x20000);
      KindPlane(rs[i]);
      NextCovered(rs, i, 0x20001);
    }
  }

  lemma AnswersExactly(t: Tables, rs: seq<Range>, rows: seq<Row>)
    requires rows != [] && RunsOfRows(rs, rows) && Valid(t) && Describes(t, rs)
    ensures Answers(t, rows)
  {
    forall cp: nat ensures Printable(t, cp) <==>
      cp < NUM_CODEPOINTS && (!EscapedBy(rows, cp) || (ShortRunAt20000(rows) && 0x20000 <= cp <= 0x20001))
    {
      PrintableMeaning(t, rs, cp);
      if cp >= 0x20000 { ShortRunPoints(rs, rows, cp); }
    }
  }

  lemma FaithfulExactly(t: Tables, rs: seq<Range>, rows: seq<Row>)
    requires rows != [] && RunsOfRows(rs, rows) && Valid(t) && Describes(t, rs)
    ensures Faithful(t, rows) <==> !ShortRunAt20000(rows)
  {
    AnswersExactly(t, rs, rows);
    if ShortRunAt20000(rows) { assert Printable(t, 0x20000) && EscapedBy(rows, 0x20000); }
  }

  /** `main` up to the printing: when each of its two assertions fails, and what
      the tables say. */
  method Generate(rows: seq<Row>) returns (g: Generated)
    requires Ordered(rows)
    ensures g.MissingLastError? <==> !Paired(rows)
    ensures g.LengthError? <==> Paired(rows) && (TooLong(rows, 0) || TooLong(rows, CUTOFF))
    ensures g.Generated? ==> Valid(g.tables) && BytesOnly(g.tables.plane0) && BytesOnly(g.tables.plane1)
    ensures g.Generated? ==> UpperBytes(g.tables.plane1) && (UpperBytes(g.tables.plane0) <==> !ShortRunAt20000(rows))
    ensures g.Generated? ==> Answers(g.tables, rows) && (Faithful(g.tables, rows) <==> !ShortRunAt20000(rows))
  {
    var codepoints := GetCodepoints(rows);
    if codepoints.MissingLast? { return MissingLastError; }
    var escaped := GetEscaped(codepoints.all);
    EscapedMembers(codepoints.all, Top(rows));
    var ranges := ToRanges(escaped);
    assert RunsOfRows(ranges, rows);
    g := Compress(ranges, rows);
  }

  /** From the runs to the tables. */
  method Compress(ranges: seq<Range>, ghost rows: seq<Row>) returns (g: Generated)
    requires rows != [] && RunsOfRows(ranges, rows)
    ensures !g.MissingLastError?
    ensures g.LengthError? <==> TooLong(rows, 0) || TooLong(rows, CUTOFF)
    ensures g.Generated? ==> Valid(g.tables) && BytesOnly(g.tables.plane0) && BytesOnly(g.tables.plane1)
    ensures g.Generated? ==> UpperBytes(g.tables.plane1) && (UpperBytes(g.tables.plane0) <==> !ShortRunAt20000(rows))
    ensures g.Generated? ==> Answers(g.tables, rows) && (Faithful(g.tables, rows) <==> !ShortRunAt20000(rows))
  {
    var lists := Classify(ranges);
    PointsSparse(ranges, Single0);
    PointsSparse(ranges, Single1);
    LengthsSeparated(ranges, Normal0);
    LengthsSeparated(ranges, Normal1);
    var p0 := BuildPlane(lists.singletons0, lists.normal0);
    var p1 := BuildPlane(lists.singletons1, lists.normal1);
    TooLongExactly(ranges, rows, Normal0);
    TooLongExactly(ranges, rows, Normal1);
    if p0.TooLongRun? || p1.TooLongRun? { return LengthError; }
    var t := Tables(p0.plane, p1.plane, lists.extra);
    AnswersExactly(t, ranges, rows);
    FaithfulExactly(t, ranges, rows);
    ShortRunAtSplit(ranges);
    PointsInPlane(ranges, Single0);
    PointsInPlane(ranges, Single1);
    return Generated(t);
  }

  /** Generating the tables and asking the C++ reader, in one go. */
  method GenerateAndAsk(rows: seq<Row>, cp: nat) returns (g: Generated, printable: bool)
    requires Ordered(rows)
    ensures g.MissingLastError? <==> !Paired(rows)
    ensures g.LengthError? <==> Paired(rows) && (TooLong(rows, 0) || TooLong(rows, CUTOFF))
    ensures g.Generated? ==>
              var wrong := ShortRunAt20000(rows) && 0x20000 <= cp <= 0x20001;
              (printable <==> cp < NUM_CODEPOINTS && (!EscapedBy(rows, cp) || wrong))
    ensures g.MissingLastError? <==>
              exists i :: 0 <= i < |rows| && EndsWith(rows[i].name, "First>")
                          && (i + 1 == |rows| || !EndsWith(rows[i + 1].name, "Last>"))
    ensures g.Generated? && cp == 0x20 ==> printable
    ensures g.Generated? ==> (printable ==> cp < 0x110000)
    ensures g.Generated? && cp < 0x110000 && cp != 0x20 && !(ShortRunAt20000(rows) && 0x20000 <= cp <= 0x20001) ==>
              forall i: nat :: RowOf(rows, i, cp) ==> (printable <==> PrintableRow(rows[i], cp))
  {
    hide EscapedBy, PrintableRow, ShortRunAt20000, Printable, TooLong;
    printable := false;
    g := Generate(rows);
    if g.Generated? { printable := IsPrintable(g.tables, cp); }
    SpaceIsPrintable(rows);
    if cp < NUM_CODEPOINTS && cp != 0x20 {
      forall i: nat | RowOf(rows, i, cp) ensures EscapedBy(rows, cp) <==> !PrintableRow(rows[i], cp) {
        PrintableByRow(rows, i, cp);
      }
    }
  }

  /** The row gives the code point a category, and not one of those escaped. */
  predicate PrintableRow(r: Row, c: nat) {
    HasCategory(r, c) && r.category !in {"", "Cc", "Cf", "Cs", "Co", "Cn", "Zl", "Zp", "Zs"}
  }

  lemma SpaceIsPrintable(rows: seq<Row>)
    requires rows != []
    ensures !EscapedBy(rows, 0x20)
  {}

  lemma PrintableByRow(rows: seq<Row>, i: nat, c: nat)
    requires Ordered(rows) && RowOf(rows, i, c) && c < NUM_CODEPOINTS && c != 0x20
    ensures EscapedBy(rows, c) <==> !PrintableRow(rows[i], c)
  {
    EscapedExactly(rows, i, c);
  }

  // ------------------------------------------------- rows with a wrong answer

  /** Everything is a letter but the control character at 0x20000. */
  const OneShortRun: seq<Row> := [
    Row(0, "<Letters, First>", "Lo"), Row(0x1ffff, "<Letters, Last>", "Lo"),
    Row(0x20000, "<control>", "Cc"),
    Row(0x20001, "<Others, First>", "Lo"), Row(0x10ffff, "<Others, Last>", "Lo")]

  lemma LettersAndControls()
    ensures "Lo" !in ESCAPED_CATEGORIES && "Lo" != "" && "Cc" in ESCAPED_CATEGORIES
    ensures First(OneShortRun[0]) && !First(OneShortRun[1]) && !First(OneShortRun[2])
    ensures First(OneShortRun[3]) && !First(OneShortRun[4])
    ensures Last(OneShortRun[1]) && Last(OneShortRun[4])
  {
    assert "Lo"[0] == 'L' && forall i :: 0 <= i < |ESCAPED_CATEGORIES| ==> ESCAPED_CATEGORIES[i][0] != 'L';
    assert ESCAPED_CATEGORIES[0] == "Cc";
    assert OneShortRun[0].name[10..] == "First>" && OneShortRun[3].name[9..] == "First>";
    assert OneShortRun[1].name[10..] == "Last>" && OneShortRun[4].name[9..] == "Last>";
    assert OneShortRun[1].name[9..][0] == ' ' && OneShortRun[4].name[8..][0] == ' ' && "First>"[0] == 'F';
    assert OneShortRun[2].name[3..][0] == 'n';
  }

  lemma OnlyOneEscaped(c: nat)
    ensures EscapedBy(OneShortRun, c) <==> c == 0x20000
  {
    LettersAndControls();
    var rows := OneShortRun;
    var r4, r3, r2, r1 := rows[..4], rows[..3], rows[..2], rows[..1];
    assert rows[..|rows| - 1] == r4 && r4[..3] == r3 && r3[..2] == r2 && r2[..1] == r1;
    assert CategoryOf(r1, c) == Category("Lo");
    assert c <= 0x1ffff ==> CategoryOf(r2, c) == Category("Lo");
    assert c <= 0x1ffff ==> CategoryOf(r3, c) == Category("Lo");
    assert c == 0x20000 ==> CategoryOf(r3, c) == Category("Cc");
    assert c <= 0x20000 ==> CategoryOf(r4, c) == CategoryOf(r3, c);
    assert c > 0x20000 ==> CategoryOf(r4, c) == Category("Lo");
    assert c < 0x10ffff ==> CategoryOf(rows, c) == CategoryOf(r4, c);
    assert c == 0x10ffff ==> CategoryOf(rows, c) == Category("Lo");
  }

  lemma OneShortRunFits()
    ensures Ordered(OneShortRun) && Paired(OneShortRun) && ShortRunAt20000(OneShortRun)
    ensures !TooLong(OneShortRun, 0) && !TooLong(OneShortRun, CUTOFF)
  {
    hide EscapedBy;
    LettersAndControls();
    forall c: nat ensures EscapedBy(OneShortRun, c) <==> c == 0x20000 { OnlyOneEscaped(c); }
    assert forall base, y :: !Three(OneShortRun, base, y);
    assert forall base, x :: !LongRunAt(OneShortRun, base, x);
    forall a: nat | a + 0x8000 <= 2 * CUTOFF ensures !AllEscaped(OneShortRun, a) {
      assert !EscapedBy(OneShortRun, a);
    }
  }

  /** Rows that pass both assertions and yet lead to a table with an entry too
      large for an unsigned char and, read as numbers, a wrong answer. */
  method WrongAnswer() returns (g: Generated, printable: bool)
    ensures Ordered(OneShortRun) && Paired(OneShortRun) && EscapedBy(OneShortRun, 0x20000)
    ensures g.Generated? && !UpperBytes(g.tables.plane0) && printable
  {
    OneShortRunFits();
    g := Generate(OneShortRun);
    printable := IsPrintable(g.tables, 0x20000);
  }
}
