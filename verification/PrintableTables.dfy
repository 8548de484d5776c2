/** The two compressors of printable.py and the C++ function that reads their
    tables back. */
module PrintableTables {
  import opened PrintableRanges

  // ------------------------------------------------------------ singletons

  /** An upper byte and how many lower bytes belong to it. */
  datatype Upper = Upper(upper: nat, count: nat)

  function Total(us: seq<Upper>): nat {
    if us == [] then 0 else Total(us[..|us| - 1]) + us[|us| - 1].count
  }

  function Block(upper: nat, lowers: seq<nat>): (s: seq<nat>)
    ensures |s| == |lowers| && forall i :: 0 <= i < |s| ==> s[i] == upper * 256 + lowers[i]
  {
    seq(|lowers|, i requires 0 <= i < |lowers| => upper * 256 + lowers[i])
  }

  /** The code points a pair of tables stands for, in order. */
  function Expand(us: seq<Upper>, lowers: seq<nat>): seq<nat>
    requires Total(us) == |lowers|
  {
    if us == [] then [] else
      var u, m := us[|us| - 1], Total(us[..|us| - 1]);
      Expand(us[..|us| - 1], lowers[..m]) + Block(u.upper, lowers[m..])
  }

  predicate AllBytes(s: seq<nat>) { forall i :: 0 <= i < |s| ==> s[i] < 256 }

  /** No upper byte without a lower one. */
  predicate AllUsed(us: seq<Upper>) { forall i :: 0 <= i < |us| ==> us[i].count >= 1 }

  predicate UppersIncrease(us: seq<Upper>) {
    forall i, j :: 0 <= i < j < |us| ==> us[i].upper < us[j].upper
  }

  lemma ExpandLast(us: seq<Upper>, u: Upper, front: seq<nat>, back: seq<nat>)
    requires Total(us) == |front| && u.count == |back|
    ensures Total(us + [u]) == |front + back|
    ensures Expand(us + [u], front + back) == Expand(us, front) + Block(u.upper, back)
  {
    assert (us + [u])[..|us|] == us;
    assert (front + back)[..|front|] == front && (front + back)[|front|..] == back;
  }

  lemma ExpandNew(us: seq<Upper>, lowers: seq<nat>, upper: nat, lower: nat)
    requires Total(us) == |lowers|
    ensures var us', lowers' := us + [Upper(upper, 1)], lowers + [lower];
            Total(us') == |lowers'| && Expand(us', lowers') == Expand(us, lowers) + [upper * 256 + lower]
  {
    ExpandLast(us, Upper(upper, 1), lowers, [lower]);
    assert Block(upper, [lower]) == [upper * 256 + lower];
  }

  lemma ExpandMore(us: seq<Upper>, u: Upper, front: seq<nat>, back: seq<nat>, lower: nat)
    requires Total(us) == |front| && u.count == |back|
    ensures var more := us + [Upper(u.upper, u.count + 1)];
            && Total(us + [u]) == |front + back|
            && Total(more) == |front + (back + [lower])|
            && Expand(more, front + (back + [lower])) == Expand(us + [u], front + back) + [u.upper * 256 + lower]
  {
    ExpandLast(us, u, front, back);
    ExpandLast(us, Upper(u.upper, u.count + 1), front, back + [lower]);
    BlockAppend(Expand(us, front), u.upper, back, lower);
  }

  lemma BlockAppend(before: seq<nat>, upper: nat, lowers: seq<nat>, lower: nat)
    ensures before + Block(upper, lowers + [lower]) == before + Block(upper, lowers) + [upper * 256 + lower]
  {
    assert Block(upper, lowers + [lower]) == Block(upper, lowers) + [upper * 256 + lower];
  }

  /** `us'` and `lowers'` stand for one more code point than `us` and `lowers`. */
  ghost predicate AddsOne(us: seq<Upper>, lowers: seq<nat>, us': seq<Upper>, lowers': seq<nat>, upper: nat,
                          lower: nat)
  {
    && Total(us) == |lowers| && Total(us') == |lowers'| && AllBytes(lowers')
    && Expand(us', lowers') == Expand(us, lowers) + [upper * 256 + lower]
    && us' != [] && us'[|us'| - 1].upper == upper
    && (AllUsed(us) ==> AllUsed(us'))
    && (UppersIncrease(us) && (us != [] ==> us[|us| - 1].upper <= upper) ==> UppersIncrease(us'))
  }

  lemma AddsNew(us: seq<Upper>, lowers: seq<nat>, upper: nat, lower: nat)
    requires Total(us) == |lowers| && AllBytes(lowers) && lower < 256
    requires us == [] || us[|us| - 1].upper != upper
    ensures AddsOne(us, lowers, us + [Upper(upper, 1)], lowers + [lower], upper, lower)
  {
    hide Expand, Total;
    ExpandNew(us, lowers, upper, lower);
    if UppersIncrease(us) && (us != [] ==> us[|us| - 1].upper <= upper) {
      IncreaseAppend(us, Upper(upper, 1));
    }
  }

  lemma IncreaseAppend(us: seq<Upper>, u: Upper)
    requires UppersIncrease(us) && (us != [] ==> us[|us| - 1].upper < u.upper)
    ensures UppersIncrease(us + [u])
  {
    forall i | 0 <= i < |us| ensures us[i].upper < u.upper {
      if i < |us| - 1 { assert us[i].upper < us[|us| - 1].upper; }
    }
  }

  lemma AddsMore(init: seq<Upper>, last: Upper, front: seq<nat>, back: seq<nat>, lower: nat)
    requires Total(init) == |front| && last.count == |back| && AllBytes(front + back) && lower < 256
    ensures AddsOne(init + [last], front + back,
                    init + [Upper(last.upper, last.count + 1)], front + (back + [lower]), last.upper, lower)
  {
    ExpandMore(init, last, front, back, lower);
  }

  /** One round: a new upper byte, or one more for the last one. */
  method AddSingleton(uppers0: seq<Upper>, lowers0: seq<nat>, upper: nat, lower: nat)
    returns (uppers: seq<Upper>, lowers: seq<nat>)
    requires Total(uppers0) == |lowers0| && AllBytes(lowers0) && lower < 256
    ensures AddsOne(uppers0, lowers0, uppers, lowers, upper, lower)
  {
    lowers := lowers0 + [lower];
    if |uppers0| == 0 || uppers0[|uppers0| - 1].upper != upper {
      AddsNew(uppers0, lowers0, upper, lower);
      uppers := uppers0 + [Upper(upper, 1)];
    } else {
      var init, last := uppers0[..|uppers0| - 1], uppers0[|uppers0| - 1];
      ghost var front, back := lowers0[..Total(init)], lowers0[Total(init)..];
      assert uppers0 == init + [last] && lowers0 == front + back;
      assert lowers == front + (back + [lower]);
      AddsMore(init, last, front, back, lower);
      uppers := init + [Upper(last.upper, last.count + 1)];
    }
  }

  lemma ExpandNothing()
    ensures Total([]) == 0 && Expand([], []) == []
  {}

  lemma UpperMonotone(i: nat, j: nat)
    requires i <= j
    ensures i / 256 <= j / 256
  {}

  /** The tables expand back to the very same list; for an increasing list the
      upper bytes strictly increase. */
  method CompressSingletons(singletons: seq<nat>) returns (uppers: seq<Upper>, lowers: seq<nat>)
    ensures Total(uppers) == |lowers| && AllBytes(lowers)
    ensures Expand(uppers, lowers) == singletons && AllUsed(uppers)
    ensures Increasing(singletons) ==> UppersIncrease(uppers)
  {
    hide Expand, Total;
    uppers, lowers := [], [];
    ExpandNothing();
    ghost var previous := 0;
    for k := 0 to |singletons|
      invariant Total(uppers) == |lowers| && AllBytes(lowers)
      invariant Expand(uppers, lowers) == singletons[..k] && AllUsed(uppers)
      invariant k > 0 ==> previous == singletons[k - 1]
      invariant uppers != [] ==> k > 0 && uppers[|uppers| - 1].upper == previous / 256
      invariant Increasing(singletons) ==> UppersIncrease(uppers)
    {
      var i := singletons[k];
      var upper, lower := i / 256, i % 256;
      assert i == upper * 256 + lower;
      assert singletons[..k + 1] == singletons[..k] + [i];
      if k > 0 && Increasing(singletons) {
        assert singletons[k - 1] < singletons[k];
        UpperMonotone(previous, i);
      }
      uppers, lowers := AddSingleton(uppers, lowers, upper, lower);
      previous := i;
    }
    assert singletons[..|singletons|] == singletons;
  }

  lemma {:induction false} SparseGrowth(s: seq<nat>, k: nat)
    requires Sparse(s) && 2 * k < |s|
    ensures s[0] + 3 * k <= s[2 * k]
  {
    if k > 0 {
      SparseGrowth(s, k - 1);
      assert s[2 * k - 2] + 3 <= s[2 * k];
    }
  }

  lemma BlockBound(s: seq<nat>, base: nat)
    requires Sparse(s) && forall i :: 0 <= i < |s| ==> base <= s[i] < base + 256
    ensures |s| <= 171
  {
    if |s| > 171 {
      SparseGrowth(s, 85);
      assert s[170] < s[171];
    }
  }

  lemma SparseParts(s: seq<nat>, t: seq<nat>)
    requires Sparse(s + t)
    ensures Sparse(s) && Sparse(t)
  {
    var u := s + t;
    assert forall i :: 0 <= i < |s| ==> s[i] == u[i];
    assert forall i :: 0 <= i < |t| ==> t[i] == u[|s| + i];
  }

  /** No count exceeds 171, so it fits the byte the C++ table gives it. */
  lemma {:induction false} CountsFit(us: seq<Upper>, lowers: seq<nat>)
    requires Total(us) == |lowers| && AllBytes(lowers) && Sparse(Expand(us, lowers))
    ensures forall i :: 0 <= i < |us| ==> us[i].count <= 171
  {
    if us != [] {
      var init, u := us[..|us| - 1], us[|us| - 1];
      var m := Total(init);
      SparseParts(Expand(init, lowers[..m]), Block(u.upper, lowers[m..]));
      CountsFit(init, lowers[..m]);
      BlockBound(Block(u.upper, lowers[m..]), u.upper * 256);
    }
  }

  predicate InPlane(s: seq<nat>) { forall i :: 0 <= i < |s| ==> s[i] < 0x10000 }

  lemma InPlaneParts(s: seq<nat>, t: seq<nat>)
    requires InPlane(s + t)
    ensures InPlane(s) && InPlane(t)
  {
    assert forall i :: 0 <= i < |s| ==> s[i] == (s + t)[i];
    assert forall i :: 0 <= i < |t| ==> t[i] == (s + t)[|s| + i];
  }

  lemma UpperFits(upper: nat, lowers: seq<nat>)
    requires lowers != [] && InPlane(Block(upper, lowers))
    ensures upper < 256
  {
    assert Block(upper, lowers)[0] == upper * 256 + lowers[0];
  }

  /** Upper bytes of code points of one plane are bytes. */
  lemma {:induction false} UppersFit(us: seq<Upper>, lowers: seq<nat>)
    requires Total(us) == |lowers| && AllUsed(us) && InPlane(Expand(us, lowers))
    ensures forall i :: 0 <= i < |us| ==> us[i].upper < 256
  {
    if us != [] {
      var init, u := us[..|us| - 1], us[|us| - 1];
      var m := Total(init);
      InPlaneParts(Expand(init, lowers[..m]), Block(u.upper, lowers[m..]));
      UppersFit(init, lowers[..m]);
      UpperFits(u.upper, lowers[m..]);
    }
  }

  /** And only of those: a code point beyond the plane needs a larger entry. */
  lemma {:induction false} UppersFitOnly(us: seq<Upper>, lowers: seq<nat>)
    requires Total(us) == |lowers| && AllBytes(lowers) && forall i :: 0 <= i < |us| ==> us[i].upper < 256
    ensures InPlane(Expand(us, lowers))
  {
    if us != [] {
      var init, u := us[..|us| - 1], us[|us| - 1];
      var m := Total(init);
      UppersFitOnly(init, lowers[..m]);
      assert InPlane(Block(u.upper, lowers[m..]));
    }
  }

  /** Some block with the upper byte of x holds its lower byte. */
  predicate Hit(us: seq<Upper>, lowers: seq<nat>, x: nat)
    requires Total(us) == |lowers|
  {
    us != [] &&
    var u, m := us[|us| - 1], Total(us[..|us| - 1]);
    Hit(us[..|us| - 1], lowers[..m], x) || (u.upper == x / 256 && x % 256 in lowers[m..])
  }

  lemma BlockMember(upper: nat, lowers: seq<nat>, x: nat)
    requires AllBytes(lowers)
    ensures x in Block(upper, lowers) <==> upper == x / 256 && x % 256 in lowers
  {
    var s := Block(upper, lowers);
    if upper == x / 256 && x % 256 in lowers {
      var i :| 0 <= i < |lowers| && lowers[i] == x % 256;
      assert s[i] == x;
    }
    if x in s {
      var i :| 0 <= i < |s| && s[i] == x;
      assert x == upper * 256 + lowers[i];
    }
  }

  lemma {:induction false} HitIsMember(us: seq<Upper>, lowers: seq<nat>, x: nat)
    requires Total(us) == |lowers| && AllBytes(lowers)
    ensures Hit(us, lowers, x) <==> x in Expand(us, lowers)
  {
    if us != [] {
      var init, m := us[..|us| - 1], Total(us[..|us| - 1]);
      HitIsMember(init, lowers[..m], x);
      BlockMember(us[|us| - 1].upper, lowers[m..], x);
    }
  }

  lemma {:induction false} TotalPrefix(us: seq<Upper>, i: nat)
    requires i <= |us|
    ensures Total(us[..i]) <= Total(us)
  {
    if i < |us| {
      assert us[..|us| - 1][..i] == us[..i];
      TotalPrefix(us[..|us| - 1], i);
    } else {
      assert us[..i] == us;
    }
  }

  /** What justifies leaving the scan at the first larger upper byte. */
  lemma {:induction false} NoLaterHit(us: seq<Upper>, lowers: seq<nat>, x: nat, i: nat)
    requires Total(us) == |lowers| && i <= |us| && Total(us[..i]) <= |lowers|
    requires forall j :: i <= j < |us| ==> us[j].upper != x / 256
    ensures Hit(us, lowers, x) == Hit(us[..i], lowers[..Total(us[..i])], x)
  {
    if i == |us| {
      assert us[..i] == us && lowers[..|lowers|] == lowers;
    } else {
      var init := us[..|us| - 1];
      assert init[..i] == us[..i];
      TotalPrefix(init, i);
      NoLaterHit(init, lowers[..Total(init)], x, i);
      assert lowers[..Total(init)][..Total(us[..i])] == lowers[..Total(us[..i])];
    }
  }

  /** The first loop of the C++ is_printable. */
  method FindSingleton(x: nat, us: seq<Upper>, lowers: seq<nat>) returns (found: bool)
    requires Total(us) == |lowers| && UppersIncrease(us)
    ensures found <==> Hit(us, lowers, x)
  {
    var upper := x / 256;
    var lowerStart := 0;
    var i := 0;
    while i < |us|
      invariant i <= |us| && lowerStart == Total(us[..i]) <= |lowers|
      invariant !Hit(us[..i], lowers[..lowerStart], x)
    {
      var s := us[i];
      TotalPrefix(us, i + 1);
      assert us[..i + 1][..i] == us[..i];
      var lowerEnd := lowerStart + s.count;
      if upper < s.upper {
        NoLaterHit(us, lowers, x, i);
        return false;
      }
      ghost var seen := lowers[..lowerEnd];
      assert seen[..lowerStart] == lowers[..lowerStart] && seen[lowerStart..] == lowers[lowerStart..lowerEnd];
      if upper == s.upper {
        for j := lowerStart to lowerEnd
          invariant x % 256 !in lowers[lowerStart..j]
        {
          if lowers[j] == x % 256 {
            assert lowers[lowerStart..lowerEnd][j - lowerStart] == x % 256;
            assert Hit(us[..i + 1], seen, x);
            HitStays(us, lowers, x, i + 1);
            return true;
          }
        }
      }
      lowerStart := lowerEnd;
      i := i + 1;
    }
    assert us[..i] == us && lowers[..lowerStart] == lowers;
    found := false;
  }

  lemma {:induction false} HitStays(us: seq<Upper>, lowers: seq<nat>, x: nat, i: nat)
    requires Total(us) == |lowers| && i <= |us| && Total(us[..i]) <= |lowers|
    requires Hit(us[..i], lowers[..Total(us[..i])], x)
    ensures Hit(us, lowers, x)
  {
    if i == |us| {
      assert us[..i] == us && lowers[..|lowers|] == lowers;
    } else {
      var init := us[..|us| - 1];
      assert init[..i] == us[..i];
      TotalPrefix(init, i);
      assert lowers[..Total(init)][..Total(us[..i])] == lowers[..Total(us[..i])];
      HitStays(init, lowers[..Total(init)], x, i);
    }
  }

  // ---------------------------------------------------------------- ranges

  /** One byte below 0x80; above, 0x80 | (n >> 8) and n & 0xff. */
  function LengthBytes(n: nat): seq<nat> {
    if n > 0x7f then [0x80 + n / 256, n % 256] else [n]
  }

  /** The codes that the comment names. */
  lemma LengthExamples()
    ensures LengthBytes(0) == [0] && LengthBytes(0x7e) == [0x7e] && LengthBytes(0x7f) == [0x7f]
    ensures LengthBytes(0x80) == [0x80, 0x80] && LengthBytes(0x81) == [0x80, 0x81]
    ensures LengthBytes(0x7ffe) == [0xff, 0xfe] && LengthBytes(0x7fff) == [0xff, 0xff]
  {}

  predicate FollowsFrom(ns: seq<Run>, prev: nat) {
    Separated(ns) && (ns != [] ==> prev <= ns[0].start)
  }

  /** No gap and no run is 0x8000 long or longer. */
  predicate Fits(ns: seq<Run>, prev: nat)
    requires FollowsFrom(ns, prev)
    decreases |ns|
  {
    ns == [] || (ns[0].start - prev < 0x8000 && ns[0].count < 0x8000 && Fits(ns[1..], ns[0].start + ns[0].count))
  }

  predicate FullWindow(ns: seq<Run>, a: nat) {
    forall x :: a <= x < a + 0x8000 ==> CoversRun(ns, x)
  }

  predicate GapWindow(ns: seq<Run>, a: nat) {
    CoversRun(ns, a + 0x8000) && forall x :: a <= x < a + 0x8000 ==> !CoversRun(ns, x)
  }

  lemma CoversFrom(ns: seq<Run>, x: nat, prev: nat)
    requires FollowsFrom(ns, prev) && CoversRun(ns, x)
    ensures prev <= x
  {
    var i :| 0 <= i < |ns| && ns[i].start <= x < ns[i].start + ns[i].count;
    assert ns[0].start <= ns[i].start;
  }

  /** A window of 0x8000 points that is covered throughout, or free throughout
      and followed by a run, makes a length too long. */
  lemma {:induction false} WindowTooLong(ns: seq<Run>, prev: nat, a: nat)
    requires FollowsFrom(ns, prev) && Maximal(ns) && prev <= a && (FullWindow(ns, a) || GapWindow(ns, a))
    ensures !Fits(ns, prev)
    decreases |ns|
  {
    assert CoversRun(ns, a) || CoversRun(ns, a + 0x8000);
    var end := ns[0].start + ns[0].count;
    forall x: nat { CoversRunFirst(ns, x); }
    if a >= end {
      WindowTooLong(ns[1..], end, a);
    } else if FullWindow(ns, a) {
      assert CoversRun(ns, a);
      if end < a + 0x8000 {
        assert CoversRun(ns, end);
        CoversFrom(ns[1..], end, end + 1);
      }
    } else {
      var p := if ns[0].start < a then a else ns[0].start;
      assert CoversRun(ns, p);
    }
  }

  lemma {:induction false} TooLongWindow(ns: seq<Run>, prev: nat) returns (a: nat)
    requires FollowsFrom(ns, prev) && Maximal(ns) && !Fits(ns, prev)
    ensures prev <= a && (FullWindow(ns, a) || GapWindow(ns, a))
    decreases |ns|
  {
    var end := ns[0].start + ns[0].count;
    forall x: nat { CoversRunFirst(ns, x); }
    if ns[0].start - prev >= 0x8000 {
      a := ns[0].start - 0x8000;
      forall x | a <= x < a + 0x8000 ensures !CoversRun(ns, x) {
        if CoversRun(ns, x) { CoversFrom(ns, x, ns[0].start); }
      }
    } else if ns[0].count >= 0x8000 {
      a := ns[0].start;
    } else {
      a := TooLongWindow(ns[1..], end);
    }
  }

  /** The lengths of gaps and runs, in turn, from `prev` on. */
  function Gaps(ns: seq<Run>, prev: nat): seq<nat>
    requires FollowsFrom(ns, prev)
    decreases |ns|
  {
    if ns == [] then [] else
      [ns[0].start - prev] + ([ns[0].count] + Gaps(ns[1..], ns[0].start + ns[0].count))
  }

  function BytesOf(lens: seq<nat>): seq<nat> {
    if lens == [] then [] else LengthBytes(lens[0]) + BytesOf(lens[1..])
  }

  function Flatten(entries: seq<seq<nat>>): seq<nat> {
    if entries == [] then [] else Flatten(entries[..|entries| - 1]) + entries[|entries| - 1]
  }

  datatype Compressed = Compressed(entries: seq<seq<nat>>) | TooLong

  method BuildEntry(trueLen: nat, falseLen: nat) returns (entry: seq<nat>)
    ensures entry == LengthBytes(trueLen) + LengthBytes(falseLen)
  {
    entry := [];
    if trueLen > 0x7f {
      entry := entry + [0x80 + trueLen / 256];
      entry := entry + [trueLen % 256];
    } else {
      entry := entry + [trueLen];
    }
    if falseLen > 0x7f {
      entry := entry + [0x80 + falseLen / 256];
      entry := entry + [falseLen % 256];
    } else {
      entry := entry + [falseLen];
    }
  }

  method CompressNormal(normal: seq<Run>) returns (r: Compressed)
    requires Separated(normal)
    ensures r.Compressed? <==> Fits(normal, 0)
    ensures r.Compressed? ==> Flatten(r.entries) == BytesOf(Gaps(normal, 0))
  {
    hide Gaps, BytesOf, Flatten, Fits;
    var compressed: seq<seq<nat>> := [];
    var prevStart := 0;
    CompressStart(normal);
    ghost var rest := normal;
    ghost var fits, bytes := Fits(normal, 0), BytesOf(Gaps(normal, 0));
    for i := 0 to |normal|
      invariant rest == normal[i..] && FollowsFrom(rest, prevStart)
      invariant fits <==> Fits(rest, prevStart)
      invariant Flatten(compressed) + BytesOf(Gaps(rest, prevStart)) == bytes
    {
      assert rest[0] == normal[i];
      var start, count := normal[i].start, normal[i].count;
      var trueLen := start - prevStart;
      var falseLen := count;
      CompressStep(compressed, rest, prevStart);
      prevStart := start + count;
      if !(trueLen < 0x8000 && falseLen < 0x8000) { return TooLong; }
      var entry := BuildEntry(trueLen, falseLen);
      compressed := compressed + [entry];
      rest := rest[1..];
    }
    CompressEnd(compressed, prevStart);
    return Compressed(compressed);
  }

  lemma CompressStart(ns: seq<Run>)
    requires Separated(ns)
    ensures Flatten([]) + BytesOf(Gaps(ns, 0)) == BytesOf(Gaps(ns, 0))
  {}

  lemma CompressEnd(entries: seq<seq<nat>>, prev: nat)
    ensures Fits([], prev) && Flatten(entries) + BytesOf(Gaps([], prev)) == Flatten(entries)
  {}

  lemma BytesCons(len: nat, lens: seq<nat>)
    ensures BytesOf([len] + lens) == LengthBytes(len) + BytesOf(lens)
  {
    assert ([len] + lens)[1..] == lens;
  }

  lemma CompressStep(entries: seq<seq<nat>>, ns: seq<Run>, prev: nat)
    requires ns != [] && FollowsFrom(ns, prev)
    ensures FollowsFrom(ns[1..], ns[0].start + ns[0].count)
    ensures Fits(ns, prev) <==>
              ns[0].start - prev < 0x8000 && ns[0].count < 0x8000 && Fits(ns[1..], ns[0].start + ns[0].count)
    ensures var e := LengthBytes(ns[0].start - prev) + LengthBytes(ns[0].count);
            Flatten(entries + [e]) + BytesOf(Gaps(ns[1..], ns[0].start + ns[0].count))
            == Flatten(entries) + BytesOf(Gaps(ns, prev))
  {
    var a, b, lens := ns[0].start - prev, ns[0].count, Gaps(ns[1..], ns[0].start + ns[0].count);
    BytesCons(a, [b] + lens);
    BytesCons(b, lens);
    var e, more := LengthBytes(a) + LengthBytes(b), BytesOf(lens);
    assert (entries + [e])[..|entries|] == entries;
    assert Flatten(entries) + e + more == Flatten(entries) + (LengthBytes(a) + (LengthBytes(b) + more));
  }

  /** A length is read off the front, or the bytes end too early. */
  datatype Read = Read(len: nat, rest: seq<nat>) | Truncated

  function ReadLength(bytes: seq<nat>): Read {
    if bytes == [] then Truncated
    else if bytes[0] < 0x80 then Read(bytes[0], bytes[1..])
    else if |bytes| == 1 then Truncated
    else Read((bytes[0] - 0x80) * 256 + bytes[1], bytes[2..])
  }

  lemma ReadBack(n: nat, rest: seq<nat>)
    ensures ReadLength(LengthBytes(n) + rest) == Read(n, rest)
  {
    var bytes := LengthBytes(n) + rest;
    assert bytes[|LengthBytes(n)|..] == rest;
  }

  /** The lengths a byte table stands for. */
  function LensOf(bytes: seq<nat>): seq<nat>
    decreases |bytes|
  {
    var r := ReadLength(bytes);
    if r.Truncated? then [] else [r.len] + LensOf(r.rest)
  }

  /** Every length of the table can be read. */
  predicate Readable(bytes: seq<nat>)
    decreases |bytes|
  {
    bytes == [] || (ReadLength(bytes).Read? && Readable(ReadLength(bytes).rest))
  }

  lemma {:induction false} LensOfBytes(lens: seq<nat>)
    ensures LensOf(BytesOf(lens)) == lens && Readable(BytesOf(lens))
  {
    if lens != [] {
      assert lens == [lens[0]] + lens[1..];
      LensOfBytes(lens[1..]);
      ReadBack(lens[0], BytesOf(lens[1..]));
    }
  }

  /** The ranges that lengths of gaps and runs stand for. */
  function RunsOf(lens: seq<nat>, prev: nat): seq<Run>
    decreases |lens|
  {
    if |lens| < 2 then [] else
      [Run(prev + lens[0], lens[1])] + RunsOf(lens[2..], prev + lens[0] + lens[1])
  }

  lemma {:induction false} RunsOfGaps(ns: seq<Run>, prev: nat)
    requires FollowsFrom(ns, prev)
    ensures RunsOf(Gaps(ns, prev), prev) == ns
    decreases |ns|
  {
    if ns != [] {
      assert ns == [ns[0]] + ns[1..];
      var more := Gaps(ns[1..], ns[0].start + ns[0].count);
      assert Gaps(ns, prev)[2..] == more;
      RunsOfGaps(ns[1..], ns[0].start + ns[0].count);
    }
  }

  /** The byte table decodes to the original ranges, and to no other. */
  lemma DecodeEncode(ns: seq<Run>)
    requires Separated(ns)
    ensures RunsOf(LensOf(BytesOf(Gaps(ns, 0))), 0) == ns
  {
    LensOfBytes(Gaps(ns, 0));
    RunsOfGaps(ns, 0);
  }

  lemma {:induction false} GapsFit(ns: seq<Run>, prev: nat)
    requires FollowsFrom(ns, prev) && Fits(ns, prev)
    ensures forall i :: 0 <= i < |Gaps(ns, prev)| ==> Gaps(ns, prev)[i] < 0x8000
    decreases |ns|
  {
    if ns != [] { GapsFit(ns[1..], ns[0].start + ns[0].count); }
  }

  lemma {:induction false} BytesFit(lens: seq<nat>)
    requires forall i :: 0 <= i < |lens| ==> lens[i] < 0x8000
    ensures AllBytes(BytesOf(lens))
  {
    if lens != [] {
      BytesFit(lens[1..]);
      assert AllBytes(LengthBytes(lens[0]));
    }
  }

  /** Walk through the lengths, changing sides after each, until x is used up. */
  function Walk(lens: seq<nat>, x: nat, current: bool): bool
    decreases |lens|
  {
    if lens == [] || x < lens[0] then current else Walk(lens[1..], x - lens[0], !current)
  }

  lemma WalkTwo(a: nat, b: nat, lens: seq<nat>, x: nat)
    ensures Walk([a] + ([b] + lens), x, true) ==
            if x < a then true else if x < a + b then false else Walk(lens, x - a - b, true)
  {
    assert ([a] + ([b] + lens))[1..] == [b] + lens;
    assert ([b] + lens)[1..] == lens;
  }

  lemma {:induction false} WalkMeaning(ns: seq<Run>, prev: nat, x: nat)
    requires FollowsFrom(ns, prev) && prev <= x
    ensures Walk(Gaps(ns, prev), x - prev, true) <==> !CoversRun(ns, x)
    decreases |ns|
  {
    if ns != [] {
      var end := ns[0].start + ns[0].count;
      WalkTwo(ns[0].start - prev, ns[0].count, Gaps(ns[1..], end), x - prev);
      CoversRunFirst(ns, x);
      if x >= end { WalkMeaning(ns[1..], end, x); }
    }
  }

  lemma CoversRunFirst(ns: seq<Run>, x: nat)
    requires ns != [] && Separated(ns)
    ensures CoversRun(ns, x) <==> ns[0].start <= x < ns[0].start + ns[0].count || CoversRun(ns[1..], x)
    ensures x < ns[0].start + ns[0].count ==> !CoversRun(ns[1..], x)
  {
    assert forall i :: 0 <= i < |ns[1..]| ==> ns[1..][i] == ns[i + 1];
    if CoversRun(ns[1..], x) {
      var i :| 0 <= i < |ns[1..]| && ns[1..][i].start <= x < ns[1..][i].start + ns[1..][i].count;
      assert ns[i + 1].start <= x;
    }
  }

  /** The second loop of the C++ is_printable. */
  method WalkNormal(x: nat, normal: seq<nat>) returns (current: bool)
    requires Readable(normal)
    ensures current == Walk(LensOf(normal), x, true)
  {
    var xsigned: int := x;
    current := true;
    var i := 0;
    while i < |normal|
      invariant i <= |normal| && xsigned >= 0 && Readable(normal[i..])
      invariant Walk(LensOf(normal[i..]), xsigned, current) == Walk(LensOf(normal), x, true)
    {
      var v := normal[i];
      ghost var r := ReadLength(normal[i..]);
      var len;
      if v >= 0x80 {
        i := i + 1;
        len := (v - 0x80) * 256 + normal[i];
      } else {
        len := v;
      }
      i := i + 1;
      assert r == Read(len, normal[i..]);
      xsigned := xsigned - len;
      if xsigned < 0 { break; }
      current := !current;
    }
  }
}
