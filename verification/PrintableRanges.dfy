/** From the rows of UnicodeData.txt to the runs of escaped code points. */
module PrintableRanges {

  const NUM_CODEPOINTS: nat := 0x110000

  datatype Row = Row(code: nat, name: string, category: string)

  predicate EndsWith(s: string, suffix: string) {
    |suffix| <= |s| && s[|s| - |suffix|..] == suffix
  }

  predicate First(r: Row) { EndsWith(r.name, "First>") }

  predicate Last(r: Row) { EndsWith(r.name, "Last>") }

  /** The order of the rows of UnicodeData.txt. */
  predicate Ordered(rows: seq<Row>) {
    rows != [] && rows[0].code == 0 && forall i, j :: 0 <= i < j < |rows| ==> rows[i].code < rows[j].code
  }

  /** Every First row is followed by a Last row. */
  predicate Paired(rows: seq<Row>) {
    forall i :: 0 <= i < |rows| && First(rows[i]) ==> i + 1 < |rows| && Last(rows[i + 1])
  }

  datatype Category = NoCategory | Category(name: string)

  /** The last row at or below a code point governs it: its own category at its
      own code; above it, up to the next row, only if it opens an interval. */
  function CategoryOf(rows: seq<Row>, c: nat): Category {
    if rows == [] then NoCategory else
      var r := rows[|rows| - 1];
      if c < r.code then CategoryOf(rows[..|rows| - 1], c)
      else if c == r.code || First(r) then Category(r.category)
      else NoCategory
  }

  datatype Codepoint = Codepoint(value: nat, category: Category)

  datatype Codepoints = Listed(all: seq<Codepoint>) | MissingLast

  function Top(rows: seq<Row>): nat
    requires rows != []
  {
    var n := rows[|rows| - 1].code + 1;
    if n < NUM_CODEPOINTS then NUM_CODEPOINTS else n
  }

  /** The code points 0, 1, ..., n - 1 with their categories. */
  predicate ListsUpTo(all: seq<Codepoint>, rows: seq<Row>, n: nat) {
    |all| == n && forall c :: 0 <= c < n ==> all[c] == Codepoint(c, CategoryOf(rows, c))
  }

  lemma ListsMore(all: seq<Codepoint>, rows: seq<Row>, r: Row, n: nat)
    requires ListsUpTo(all, rows, n) && n <= r.code
    ensures ListsUpTo(all, rows + [r], n)
  {
    var more := rows + [r];
    assert more[..|more| - 1] == rows;
    assert forall c :: 0 <= c < n ==> CategoryOf(more, c) == CategoryOf(rows, c);
  }

  lemma ListsRow(all: seq<Codepoint>, rows: seq<Row>, r: Row)
    requires ListsUpTo(all, rows, r.code)
    ensures ListsUpTo(all + [Codepoint(r.code, Category(r.category))], rows + [r], r.code + 1)
  {
    ListsMore(all, rows, r, r.code);
  }

  lemma ListsNothing()
    ensures ListsUpTo([], [], 0)
  {}

  /** The gap-filling inner loop: every code point up to `end` gets `category`. */
  method Fill(all0: seq<Codepoint>, start: nat, end: nat, category: Category, ghost rows: seq<Row>)
    returns (all: seq<Codepoint>)
    requires ListsUpTo(all0, rows, start)
    requires rows != [] && rows[|rows| - 1].code < start
    requires category == if First(rows[|rows| - 1]) then Category(rows[|rows| - 1].category) else NoCategory
    ensures ListsUpTo(all, rows, if start <= end then end else start)
  {
    all := all0;
    var c := start;
    while c < end
      invariant start <= c && (c <= end || c == start)
      invariant ListsUpTo(all, rows, c)
    {
      all := all + [Codepoint(c, category)];
      c := c + 1;
    }
  }

  method GetCodepoints(rows: seq<Row>) returns (r: Codepoints)
    requires Ordered(rows)
    ensures r.Listed? <==> Paired(rows)
    ensures r.Listed? ==> ListsUpTo(r.all, rows, Top(rows))
  {
    hide ListsUpTo, CategoryOf, First, Last;
    var all: seq<Codepoint> := [];
    var prevCodepoint := 0;
    var classFirst := NoCategory;
    ListsNothing();
    assert rows[..0] == [];
    for i := 0 to |rows|
      invariant ListsUpTo(all, rows[..i], if i == 0 then 0 else prevCodepoint + 1)
      invariant i > 0 ==> prevCodepoint == rows[i - 1].code
      invariant i == 0 ==> prevCodepoint == 0
      invariant classFirst == if i > 0 && First(rows[i - 1]) then Category(rows[i - 1].category) else NoCategory
      invariant forall k :: 0 <= k < i - 1 && First(rows[k]) ==> Last(rows[k + 1])
    {
      var row := rows[i];
      if classFirst != NoCategory && !Last(row) {
        assert First(rows[i - 1]) && !Last(rows[i - 1 + 1]);
        return MissingLast;
      }
      if i > 0 { all := Fill(all, prevCodepoint + 1, row.code, classFirst, rows[..i]); }
      classFirst := if First(row) then Category(row.category) else NoCategory;
      ListsRow(all, rows[..i], row);
      assert rows[..i + 1] == rows[..i] + [row];
      all := all + [Codepoint(row.code, Category(row.category))];
      prevCodepoint := row.code;
    }
    assert rows[..|rows|] == rows;
    if classFirst != NoCategory { return MissingLast; }
    all := Fill(all, prevCodepoint + 1, NUM_CODEPOINTS, NoCategory, rows);
    return Listed(all);
  }

  // -------------------------------------------------------------- escaping

  const ESCAPED_CATEGORIES: seq<string> := ["Cc", "Cf", "Cs", "Co", "Cn", "Zl", "Zp", "Zs"]

  /** An absent or empty category counts as "Cn"; the space is never escaped. */
  predicate IsEscaped(c: Codepoint) {
    var name := if c.category.NoCategory? || c.category.name == "" then "Cn" else c.category.name;
    name in ESCAPED_CATEGORIES && c.value != 0x20
  }

  function GetEscaped(cs: seq<Codepoint>): seq<nat> {
    if cs == [] then [] else
      var c := cs[|cs| - 1];
      GetEscaped(cs[..|cs| - 1]) + if IsEscaped(c) then [c.value] else []
  }

  predicate Increasing(s: seq<nat>) {
    forall i, j :: 0 <= i < j < |s| ==> s[i] < s[j]
  }

  /** The code points the tables are meant to describe. */
  predicate EscapedBy(rows: seq<Row>, c: nat)
    requires rows != []
  {
    c < Top(rows) && IsEscaped(Codepoint(c, CategoryOf(rows, c)))
  }

  lemma {:induction false} EscapedMembers(cs: seq<Codepoint>, n: nat)
    requires |cs| == n && forall c :: 0 <= c < n ==> cs[c].value == c
    ensures Increasing(GetEscaped(cs))
    ensures forall x :: x in GetEscaped(cs) <==> 0 <= x < n && IsEscaped(cs[x])
  {
    if n > 0 {
      var init := cs[..n - 1];
      assert forall x :: 0 <= x < n - 1 ==> init[x] == cs[x];
      EscapedMembers(init, n - 1);
      var before := GetEscaped(init);
      assert forall i :: 0 <= i < |before| ==> before[i] in before;
    }
  }

  // ------------------------------------------------ escaped, row by row

  /** The last row at or below the code point. */
  predicate RowOf(rows: seq<Row>, i: nat, c: nat) {
    i < |rows| && rows[i].code <= c && (i + 1 < |rows| ==> c < rows[i + 1].code)
  }

  lemma {:induction false} FindRow(rows: seq<Row>, c: nat) returns (i: nat)
    requires Ordered(rows)
    ensures RowOf(rows, i, c)
  {
    i := |rows| - 1;
    while rows[i].code > c
      invariant i < |rows| && (i + 1 < |rows| ==> c < rows[i + 1].code)
    {
      i := i - 1;
    }
  }

  lemma {:induction false} RowDecides(rows: seq<Row>, i: nat, c: nat)
    requires rows != [] && RowOf(rows, i, c)
    requires forall j, k :: 0 <= j < k < |rows| ==> rows[j].code < rows[k].code
    ensures CategoryOf(rows, c)
            == if c == rows[i].code || First(rows[i]) then Category(rows[i].category) else NoCategory
  {
    if i < |rows| - 1 {
      var init := rows[..|rows| - 1];
      assert c < rows[|rows| - 1].code;
      RowDecides(init, i, c);
    }
  }

  /** The code point has the category of that row: it is the row's own, or the row
      opens an interval. */
  predicate HasCategory(r: Row, c: nat) {
    c == r.code || (|r.name| >= 6 && r.name[|r.name| - 6..] == "First>")
  }

  /** Escaped are the unassigned code points and those of eight categories, but
      never the space. */
  lemma EscapedExactly(rows: seq<Row>, i: nat, c: nat)
    requires Ordered(rows) && RowOf(rows, i, c) && c < NUM_CODEPOINTS
    ensures EscapedBy(rows, c) <==>
            && c != 0x20
            && (HasCategory(rows[i], c) ==>
                  rows[i].category in {"", "Cc", "Cf", "Cs", "Co", "Cn", "Zl", "Zp", "Zs"})
  {
    RowDecides(rows, i, c);
    assert |"First>"| == 6;
    EscapedNames(rows[i].category);
    EscapedNames("Cn");
  }

  lemma EscapedNames(name: string)
    ensures name in ESCAPED_CATEGORIES <==> name in {"Cc", "Cf", "Cs", "Co", "Cn", "Zl", "Zp", "Zs"}
  {
    var names := ESCAPED_CATEGORIES;
    assert names[0] == "Cc" && names[1] == "Cf" && names[2] == "Cs" && names[3] == "Co";
    assert names[4] == "Cn" && names[5] == "Zl" && names[6] == "Zp" && names[7] == "Zs";
  }

  // ---------------------------------------------------------------- runs

  datatype Range = Range(lo: nat, hi: nat)

  predicate IsSplit(x: nat) { x == 0x10000 || x == 0x20000 }

  predicate Covers(rs: seq<Range>, x: nat) {
    exists i :: 0 <= i < |rs| && rs[i].lo <= x < rs[i].hi
  }

  predicate Sound(r: Range) {
    r.lo < r.hi && !(r.lo < 0x10000 < r.hi) && !(r.lo < 0x20000 < r.hi)
  }

  /** Disjoint, in order, not crossing a split point, and maximal otherwise. */
  predicate Runs(rs: seq<Range>) {
    && (forall i :: 0 <= i < |rs| ==> Sound(rs[i]))
    && (forall i, j :: 0 <= i < j < |rs| ==> Apart(rs[i], rs[j]))
  }

  predicate Apart(r: Range, q: Range) {
    r.hi < q.lo || (r.hi == q.lo && IsSplit(q.lo))
  }

  lemma CoversAppend(rs: seq<Range>, r: Range, x: nat)
    ensures Covers(rs + [r], x) <==> Covers(rs, x) || r.lo <= x < r.hi
  {
    var all := rs + [r];
    if Covers(rs, x) {
      var i :| 0 <= i < |rs| && rs[i].lo <= x < rs[i].hi;
      assert all[i] == rs[i];
    }
    if r.lo <= x < r.hi { assert all[|rs|] == r; }
  }

  lemma RunsAppend(rs: seq<Range>, q: Range, r: Range)
    requires Runs(rs + [q]) && Sound(r) && Apart(q, r)
    ensures Runs(rs + [q] + [r])
  {
    var all := rs + [q];
    assert all[|rs|] == q;
    forall i | 0 <= i < |all| ensures Apart(all[i], r) {
      if i < |rs| { assert Apart(all[i], all[|rs|]); }
    }
  }

  lemma RunsExtend(rs: seq<Range>, r: Range)
    requires Runs(rs + [r]) && !IsSplit(r.hi)
    ensures Runs(rs + [r.(hi := r.hi + 1)])
  {
    var all := rs + [r];
    assert all[|rs|] == r && Sound(r);
    forall i | 0 <= i < |rs| ensures Apart(rs[i], r) {
      assert all[i] == rs[i] && Apart(all[i], all[|rs|]);
    }
    assert forall i :: 0 <= i < |rs| ==> all[i] == rs[i];
  }

  /** The state of the generator: finished runs, the current one, and how much
      of the input they cover. */
  ghost predicate Grouping(rs: seq<Range>, cur: Range, done: seq<nat>) {
    && done != [] && cur.hi == done[|done| - 1] + 1
    && Runs(rs + [cur])
    && forall x :: Covers(rs + [cur], x) <==> x in done
  }

  lemma GroupingStart(i: nat)
    ensures Grouping([], Range(i, i + 1), [i])
  {
    forall x ensures Covers([] + [Range(i, i + 1)], x) <==> x in [i] {
      CoversAppend([], Range(i, i + 1), x);
    }
  }

  lemma GroupingExtend(rs: seq<Range>, cur: Range, done: seq<nat>, i: nat)
    requires Grouping(rs, cur, done) && i == cur.hi && !IsSplit(i)
    ensures Grouping(rs, cur.(hi := cur.hi + 1), done + [i])
  {
    var wider := cur.(hi := cur.hi + 1);
    RunsExtend(rs, cur);
    assert Sound((rs + [cur])[|rs|]);
    forall x ensures Covers(rs + [wider], x) <==> x in done + [i] {
      CoversAppend(rs, cur, x);
      CoversAppend(rs, wider, x);
    }
  }

  lemma GroupingNext(rs: seq<Range>, cur: Range, done: seq<nat>, i: nat)
    requires Grouping(rs, cur, done) && cur.hi <= i && (i == cur.hi ==> IsSplit(i))
    ensures Grouping(rs + [cur], Range(i, i + 1), done + [i])
  {
    var next := Range(i, i + 1);
    RunsAppend(rs, cur, next);
    forall x ensures Covers(rs + [cur] + [next], x) <==> x in done + [i] {
      CoversAppend(rs + [cur], next, x);
    }
  }

  method ToRanges(input: seq<nat>) returns (rs: seq<Range>)
    requires Increasing(input)
    ensures Runs(rs)
    ensures forall x :: Covers(rs, x) <==> x in input
  {
    rs := [];
    if input == [] { return; }
    var current := Range(input[0], input[0] + 1);
    assert input[..1] == [input[0]];
    GroupingStart(input[0]);
    for k := 1 to |input|
      invariant Grouping(rs, current, input[..k])
    {
      var i := input[k];
      assert input[..k + 1] == input[..k] + [i];
      assert input[k - 1] < i;
      if i != current.hi || i == 0x10000 || i == 0x20000 {
        GroupingNext(rs, current, input[..k], i);
        rs := rs + [current];
        current := Range(i, i + 1);
      } else {
        GroupingExtend(rs, current, input[..k], i);
        current := current.(hi := current.hi + 1);
      }
    }
    assert input[..|input|] == input;
    rs := rs + [current];
  }

  // -------------------------------------------------------- classification

  const CUTOFF: nat := 0x10000

  /** a & CUTOFF */
  predicate CutoffBit(a: nat) { a / CUTOFF % 2 == 1 }

  /** a & ~CUTOFF */
  function WithoutCutoff(a: nat): nat { if CutoffBit(a) then a - CUTOFF else a }

  datatype Kind = Single0 | Single1 | Normal0 | Normal1 | Extra

  function KindOf(r: Range): Kind {
    if r.lo > 2 * CUTOFF then Extra
    else if r.lo + 1 == r.hi || r.lo + 2 == r.hi then (if CutoffBit(r.lo) then Single1 else Single0)
    else if r.lo >= 2 * CUTOFF then Extra
    else if CutoffBit(r.lo) then Normal1
    else Normal0
  }

  function Offset(k: Kind): nat { if k == Single1 || k == Normal1 then CUTOFF else 0 }

  datatype Run = Run(start: nat, count: nat)

  /** The points of the short runs of one kind, and the other runs of one kind,
      moved down to their plane. */
  function Points(rs: seq<Range>, k: Kind): seq<nat> {
    if rs == [] then [] else
      var r := rs[|rs| - 1];
      Points(rs[..|rs| - 1], k) + if KindOf(r) == k then RangePoints(r) else []
  }

  function RangePoints(r: Range): seq<nat> {
    if r.lo + 1 == r.hi then [WithoutCutoff(r.lo)] else [WithoutCutoff(r.lo), WithoutCutoff(r.lo + 1)]
  }

  function Lengths(rs: seq<Range>, k: Kind): seq<Run> {
    if rs == [] then [] else
      var r := rs[|rs| - 1];
      var start := if k == Extra then r.lo else WithoutCutoff(r.lo);
      Lengths(rs[..|rs| - 1], k) + if KindOf(r) == k && r.lo <= r.hi then [Run(start, r.hi - r.lo)] else []
  }

  datatype Lists = Lists(
    singletons0: seq<nat>, singletons1: seq<nat>, normal0: seq<Run>, normal1: seq<Run>, extra: seq<Run>)

  /** The list of its kind that a run is appended to. */
  method ClassifyOne(l0: Lists, r: Range) returns (l: Lists)
    requires Sound(r)
    ensures l.singletons0 == l0.singletons0 + if KindOf(r) == Single0 then RangePoints(r) else []
    ensures l.singletons1 == l0.singletons1 + if KindOf(r) == Single1 then RangePoints(r) else []
    ensures l.normal0 == l0.normal0 + if KindOf(r) == Normal0 then [Run(WithoutCutoff(r.lo), r.hi - r.lo)] else []
    ensures l.normal1 == l0.normal1 + if KindOf(r) == Normal1 then [Run(WithoutCutoff(r.lo), r.hi - r.lo)] else []
    ensures l.extra == l0.extra + if KindOf(r) == Extra then [Run(r.lo, r.hi - r.lo)] else []
  {
    l := l0;
    var a, b := r.lo, r.hi;
    if a > 2 * CUTOFF {
      l := l.(extra := l.extra + [Run(a, b - a)]);
    } else if a == b - 1 {
      if CutoffBit(a) {
        l := l.(singletons1 := l.singletons1 + [WithoutCutoff(a)]);
      } else {
        l := l.(singletons0 := l.singletons0 + [a]);
      }
    } else if a == b - 2 {
      if CutoffBit(a) {
        l := l.(singletons1 := l.singletons1 + [WithoutCutoff(a)] + [WithoutCutoff(a + 1)]);
      } else {
        assert !CutoffBit(a + 1);
        l := l.(singletons0 := l.singletons0 + [a] + [a + 1]);
      }
    } else {
      if a >= 2 * CUTOFF {
        l := l.(extra := l.extra + [Run(a, b - a)]);
      } else if CutoffBit(a) {
        l := l.(normal1 := l.normal1 + [Run(WithoutCutoff(a), b - a)]);
      } else {
        l := l.(normal0 := l.normal0 + [Run(a, b - a)]);
      }
    }
  }

  /** The classification loop of `main`. */
  method Classify(rs: seq<Range>) returns (l: Lists)
    requires Runs(rs)
    ensures l == Lists(Points(rs, Single0), Points(rs, Single1),
                       Lengths(rs, Normal0), Lengths(rs, Normal1), Lengths(rs, Extra))
  {
    l := Lists([], [], [], [], []);
    for i := 0 to |rs|
      invariant l.singletons0 == Points(rs[..i], Single0) && l.singletons1 == Points(rs[..i], Single1)
      invariant l.normal0 == Lengths(rs[..i], Normal0) && l.normal1 == Lengths(rs[..i], Normal1)
      invariant l.extra == Lengths(rs[..i], Extra)
    {
      assert rs[..i + 1][..i] == rs[..i];
      l := ClassifyOne(l, rs[i]);
    }
    assert rs[..|rs|] == rs;
  }

  /** Within a plane the points of a run keep their distance from its start. */
  lemma KindPlane(r: Range)
    requires Sound(r)
    ensures KindOf(r).Single0? ==> CUTOFF > r.lo || r.lo == 2 * CUTOFF
    ensures KindOf(r).Normal0? ==> r.hi <= CUTOFF
    ensures KindOf(r).Single0? && r.lo < CUTOFF ==> r.hi <= CUTOFF
    ensures KindOf(r).Single1? || KindOf(r).Normal1? ==> CUTOFF <= r.lo && r.hi <= 2 * CUTOFF
    ensures KindOf(r).Extra? ==> r.lo >= 2 * CUTOFF
    ensures KindOf(r).Single0? || KindOf(r).Single1? ==>
              && |RangePoints(r)| == r.hi - r.lo <= 2
              && forall i :: 0 <= i < |RangePoints(r)| ==> RangePoints(r)[i] == r.lo + i - Offset(KindOf(r))
    ensures KindOf(r).Normal0? || KindOf(r).Normal1? ==>
              r.lo <= r.hi && WithoutCutoff(r.lo) == r.lo - Offset(KindOf(r))
  {
    assert r.lo < CUTOFF ==> !CutoffBit(r.lo) && (r.lo + 1 < CUTOFF ==> !CutoffBit(r.lo + 1));
    assert CUTOFF <= r.lo < 2 * CUTOFF ==> CutoffBit(r.lo) && (r.lo + 1 < 2 * CUTOFF ==> CutoffBit(r.lo + 1));
    assert r.lo == 2 * CUTOFF ==> !CutoffBit(r.lo) && !CutoffBit(r.lo + 1);
  }

  /** Two runs of the same kind are never adjacent. */
  lemma SameKindGap(rs: seq<Range>, i: nat, j: nat)
    requires Runs(rs) && i < j < |rs|
    requires KindOf(rs[i]) == KindOf(rs[j]) && !KindOf(rs[i]).Extra?
    ensures rs[i].hi < rs[j].lo
  {
    assert Sound(rs[i]) && Sound(rs[j]) && Apart(rs[i], rs[j]);
    KindPlane(rs[i]);
    KindPlane(rs[j]);
  }

  ghost predicate CoversKind(rs: seq<Range>, k: Kind, x: nat) {
    exists i :: 0 <= i < |rs| && KindOf(rs[i]) == k && rs[i].lo <= x < rs[i].hi
  }

  lemma CoversKindLast(rs: seq<Range>, k: Kind, x: nat)
    requires rs != []
    ensures var r := rs[|rs| - 1];
            CoversKind(rs, k, x) <==> CoversKind(rs[..|rs| - 1], k, x) || (KindOf(r) == k && r.lo <= x < r.hi)
  {
    var init := rs[..|rs| - 1];
    assert forall i :: 0 <= i < |init| ==> init[i] == rs[i];
  }

  lemma RunsInit(rs: seq<Range>)
    requires Runs(rs) && rs != []
    ensures Runs(rs[..|rs| - 1]) && Sound(rs[|rs| - 1])
  {}

  /** Singletons: exactly the points of the short runs of their kind. */
  lemma {:induction false} PointsMember(rs: seq<Range>, k: Kind, x: nat)
    requires Runs(rs) && (k.Single0? || k.Single1?)
    ensures x in Points(rs, k) <==> CoversKind(rs, k, x + Offset(k))
  {
    if rs != [] {
      var r := rs[|rs| - 1];
      RunsInit(rs);
      PointsMember(rs[..|rs| - 1], k, x);
      CoversKindLast(rs, k, x + Offset(k));
      KindPlane(r);
      if KindOf(r) == k && r.lo <= x + Offset(k) < r.hi {
        assert RangePoints(r)[x + Offset(k) - r.lo] == x;
      }
    }
  }

  /** Increasing, and never three consecutive numbers. */
  predicate Sparse(s: seq<nat>) {
    Increasing(s) && forall i, j :: 0 <= i && i + 2 <= j < |s| ==> s[i] + 3 <= s[j]
  }

  predicate AllBelow(s: seq<nat>, a: int) {
    forall i :: 0 <= i < |s| ==> s[i] + 2 <= a
  }

  lemma PointsBelow(rs: seq<Range>, k: Kind)
    requires Runs(rs) && rs != [] && (k.Single0? || k.Single1?) && KindOf(rs[|rs| - 1]) == k
    ensures AllBelow(Points(rs[..|rs| - 1], k), rs[|rs| - 1].lo - Offset(k))
  {
    var init := rs[..|rs| - 1];
    var s := Points(init, k);
    RunsInit(rs);
    forall j | 0 <= j < |s| ensures s[j] + 2 <= rs[|rs| - 1].lo - Offset(k) {
      PointsMember(init, k, s[j]);
      var i :| 0 <= i < |init| && KindOf(init[i]) == k && init[i].lo <= s[j] + Offset(k) < init[i].hi;
      assert init[i] == rs[i];
      SameKindGap(rs, i, |rs| - 1);
    }
  }

  lemma SparseAppend(s: seq<nat>, t: seq<nat>, a: nat)
    requires Sparse(s) && AllBelow(s, a)
    requires |t| <= 2 && forall i :: 0 <= i < |t| ==> t[i] == a + i
    ensures Sparse(s + t)
  {
    var u := s + t;
    forall i, j | 0 <= i && i + 2 <= j < |u| ensures u[i] + 3 <= u[j] {
      if i < |s| <= j && i + 1 < |s| { assert s[i] < s[|s| - 1]; }
    }
  }

  /** Three consecutive points can never all be singletons of one plane. */
  lemma {:induction false} PointsSparse(rs: seq<Range>, k: Kind)
    requires Runs(rs) && (k.Single0? || k.Single1?)
    ensures Sparse(Points(rs, k))
  {
    if rs != [] {
      var r := rs[|rs| - 1];
      RunsInit(rs);
      PointsSparse(rs[..|rs| - 1], k);
      if KindOf(r) == k {
        KindPlane(r);
        PointsBelow(rs, k);
        SparseAppend(Points(rs[..|rs| - 1], k), RangePoints(r), r.lo - Offset(k));
      }
    }
  }

  predicate CoversRun(ns: seq<Run>, x: nat) {
    exists i :: 0 <= i < |ns| && ns[i].start <= x < ns[i].start + ns[i].count
  }

  lemma CoversRunLast(ns: seq<Run>, n: Run, x: nat)
    ensures CoversRun(ns + [n], x) <==> CoversRun(ns, x) || n.start <= x < n.start + n.count
  {
    var all := ns + [n];
    if CoversRun(ns, x) {
      var i :| 0 <= i < |ns| && ns[i].start <= x < ns[i].start + ns[i].count;
      assert all[i] == ns[i];
    }
    if n.start <= x < n.start + n.count { assert all[|ns|] == n; }
  }

  lemma LengthsLast(rs: seq<Range>, k: Kind)
    requires Runs(rs) && rs != [] && !k.Single0? && !k.Single1?
    ensures var init, r := rs[..|rs| - 1], rs[|rs| - 1];
            && r.lo - Offset(KindOf(r)) >= 0
            && Lengths(rs, k) == if KindOf(r) == k
                                 then Lengths(init, k) + [Run(r.lo - Offset(k), r.hi - r.lo)]
                                 else Lengths(init, k)
  {
    RunsInit(rs);
    KindPlane(rs[|rs| - 1]);
  }

  lemma {:induction false} LengthsCover(rs: seq<Range>, k: Kind, x: nat)
    requires Runs(rs) && !k.Single0? && !k.Single1?
    ensures CoversRun(Lengths(rs, k), x) <==> CoversKind(rs, k, x + Offset(k))
  {
    if rs != [] {
      var init, r := rs[..|rs| - 1], rs[|rs| - 1];
      RunsInit(rs);
      LengthsLast(rs, k);
      LengthsCover(init, k, x);
      CoversKindLast(rs, k, x + Offset(k));
      if KindOf(r) == k {
        CoversRunLast(Lengths(init, k), Run(r.lo - Offset(k), r.hi - r.lo), x);
      }
    }
  }

  /** In order and apart, so that every gap has a length. */
  predicate Separated(ns: seq<Run>) {
    forall i, j :: 0 <= i < j < |ns| ==> ns[i].start + ns[i].count <= ns[j].start
  }

  /** No run is empty and no two of them touch. */
  predicate Maximal(ns: seq<Run>) {
    && (forall i :: 0 <= i < |ns| ==> ns[i].count >= 1)
    && (forall i, j :: 0 <= i < j < |ns| ==> ns[i].start + ns[i].count < ns[j].start)
  }

  /** Every entry of the list is a run of its kind. */
  lemma {:induction false} LengthsFrom(rs: seq<Range>, k: Kind, j: nat) returns (i: nat)
    requires Runs(rs) && !k.Single0? && !k.Single1? && j < |Lengths(rs, k)|
    ensures i < |rs| && KindOf(rs[i]) == k && rs[i].lo - Offset(k) >= 0 && rs[i].lo <= rs[i].hi
    ensures Lengths(rs, k)[j] == Run(rs[i].lo - Offset(k), rs[i].hi - rs[i].lo)
  {
    RunsInit(rs);
    LengthsLast(rs, k);
    if j < |Lengths(rs[..|rs| - 1], k)| {
      i := LengthsFrom(rs[..|rs| - 1], k, j);
    } else {
      i := |rs| - 1;
    }
  }

  lemma {:induction false} LengthsSeparated(rs: seq<Range>, k: Kind)
    requires Runs(rs) && (k.Normal0? || k.Normal1?)
    ensures Separated(Lengths(rs, k)) && Maximal(Lengths(rs, k))
  {
    if rs != [] {
      var init, r := rs[..|rs| - 1], rs[|rs| - 1];
      RunsInit(rs);
      LengthsLast(rs, k);
      LengthsSeparated(init, k);
      var before := Lengths(init, k);
      if KindOf(r) == k {
        forall j | 0 <= j < |before| ensures before[j].start + before[j].count < r.lo - Offset(k) {
          var i := LengthsFrom(init, k, j);
          assert init[i] == rs[i];
          SameKindGap(rs, i, |rs| - 1);
        }
      }
    }
  }
}
