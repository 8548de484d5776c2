/** `transform`: a worklist rewrite of a pattern tree into one disjunction of
    conjunctions of leaves. */
module DocoptTransform {
  import opened DocoptPattern
  import opened Numbers

  /** One alternative of a pattern: the leaves it asks for, in no order. */
  type Case = multiset<Leaf>

  // ---------------------------------------------------------------- meaning

  function Added(m: Case, b: seq<Case>): (r: seq<Case>)
    ensures |r| == |b|
    ensures forall i :: 0 <= i < |b| ==> r[i] == m + b[i]
  {
    seq(|b|, i requires 0 <= i < |b| => m + b[i])
  }

  /** Every choice from `a` joined with every choice from `b`. */
  function Product(a: seq<Case>, b: seq<Case>): seq<Case> {
    if a == [] then [] else Added(a[0], b) + Product(a[1..], b)
  }

  /** The cases of a pattern: Required and Optional multiply, Either adds, and
      OneOrMore multiplies its children twice, with independent choices. */
  function Cases(p: Pattern): seq<Case> {
    match p
    case Tip(l) => [multiset{l}]
    case Either(cs) => AnyOf(cs)
    case OneOrMore(cs) => Product(AllOf(cs), AllOf(cs))
    case Required(cs) => AllOf(cs)
    case Optional(cs) => AllOf(cs)
    case OptionsShortcut(cs) => AllOf(cs)
  }

  function AllOf(ps: seq<Pattern>): seq<Case> {
    if ps == [] then [multiset{}] else Product(Cases(ps[0]), AllOf(ps[1..]))
  }

  function AnyOf(ps: seq<Pattern>): seq<Case> {
    if ps == [] then [] else Cases(ps[0]) + AnyOf(ps[1..])
  }

  // ------------------------------------------------------ laws of Product

  lemma ProductSingle(m: Case, b: seq<Case>)
    ensures Product([m], b) == Added(m, b)
  {
    assert Product([m][1..], b) == [];
  }

  lemma {:induction false} ProductOfSingle(a: seq<Case>, m: Case)
    ensures Product(a, [m]) == Added(m, a)
  {
    if a != [] {
      ProductOfSingle(a[1..], m);
      assert m + a[0] == a[0] + m;
      assert Added(a[0], [m]) == [m + a[0]];
      assert Added(m, a) == [m + a[0]] + Added(m, a[1..]);
    }
  }

  lemma {:induction false} ProductUnit(a: seq<Case>)
    ensures Product(a, [multiset{}]) == a && Product([multiset{}], a) == a
  {
    ProductOfSingle(a, multiset{});
    ProductSingle(multiset{}, a);
    assert forall i :: 0 <= i < |a| ==> multiset{} + a[i] == a[i];
  }

  lemma {:induction false} ProductConcat(a: seq<Case>, a': seq<Case>, b: seq<Case>)
    ensures Product(a + a', b) == Product(a, b) + Product(a', b)
  {
    if a == [] {
      assert a + a' == a';
    } else {
      assert (a + a')[1..] == a[1..] + a';
      ProductConcat(a[1..], a', b);
    }
  }

  lemma {:induction false} AddedProduct(m: Case, a: seq<Case>, b: seq<Case>)
    ensures Product(Added(m, a), b) == Added(m, Product(a, b))
  {
    if a != [] {
      AddedProduct(m, a[1..], b);
      assert Added(m, a)[1..] == Added(m, a[1..]);
      assert forall i :: 0 <= i < |b| ==> (m + a[0]) + b[i] == m + (a[0] + b[i]);
      assert Added(m + a[0], b) == Added(m, Added(a[0], b));
      assert Added(m, Product(a, b)) == Added(m, Added(a[0], b)) + Added(m, Product(a[1..], b));
    }
  }

  lemma {:induction false} ProductAssoc(a: seq<Case>, b: seq<Case>, c: seq<Case>)
    ensures Product(Product(a, b), c) == Product(a, Product(b, c))
  {
    if a != [] {
      ProductAssoc(a[1..], b, c);
      ProductConcat(Added(a[0], b), Product(a[1..], b), c);
      AddedProduct(a[0], b, c);
    }
  }

  /** A factor with a single case may be moved in front of any other. */
  lemma SingleCommutes(m: Case, a: seq<Case>, b: seq<Case>)
    ensures Product([m], Product(a, b)) == Product(a, Product([m], b))
  {
    ProductSingle(m, a);
    ProductOfSingle(a, m);
    ProductAssoc([m], a, b);
    ProductAssoc(a, [m], b);
  }

  lemma {:induction false} AllOfConcat(ps: seq<Pattern>, qs: seq<Pattern>)
    ensures AllOf(ps + qs) == Product(AllOf(ps), AllOf(qs))
  {
    if ps == [] {
      assert ps + qs == qs;
      ProductUnit(AllOf(qs));
    } else {
      assert (ps + qs)[1..] == ps[1..] + qs;
      AllOfConcat(ps[1..], qs);
      ProductAssoc(Cases(ps[0]), AllOf(ps[1..]), AllOf(qs));
    }
  }

  lemma AllOfOne(p: Pattern)
    ensures AllOf([p]) == Cases(p)
  {
    assert [p][1..] == [];
    ProductUnit(Cases(p));
  }

  predicate AllTips(ps: seq<Pattern>) { forall i :: 0 <= i < |ps| ==> ps[i].Tip? }

  function LeavesOf(ps: seq<Pattern>): (ls: seq<Leaf>)
    requires AllTips(ps)
    ensures |ls| == |ps|
    ensures forall i :: 0 <= i < |ls| ==> ls[i] == ps[i].leaf
  {
    seq(|ps|, i requires 0 <= i < |ps| => ps[i].leaf)
  }

  /** A group of leaves only has one case: those leaves. */
  lemma {:induction false} AllOfTips(ps: seq<Pattern>)
    requires AllTips(ps)
    ensures AllOf(ps) == [multiset(LeavesOf(ps))]
  {
    if ps != [] {
      AllOfTips(ps[1..]);
      var ls := LeavesOf(ps);
      assert ls == [ls[0]] + ls[1..];
      assert ls[1..] == LeavesOf(ps[1..]);
      ProductSingle(multiset{ps[0].leaf}, AllOf(ps[1..]));
    }
  }

  /** Pulling the first branch child to the front of a group, which is what
      each round does before expanding it, does not change the group's cases. */
  lemma PullFront(tips: seq<Pattern>, child: Pattern, rest: seq<Pattern>)
    requires AllTips(tips)
    ensures AllOf(tips + [child] + rest) == Product(Cases(child), AllOf(tips + rest))
  {
    AllOfTips(tips);
    AllOfConcat(tips, [child] + rest);
    AllOfConcat([child], rest);
    AllOfOne(child);
    AllOfConcat(tips, rest);
    assert tips + [child] + rest == tips + ([child] + rest);
    SingleCommutes(multiset(LeavesOf(tips)), Cases(child), AllOf(rest));
  }

  // ------------------------------------------------------------- worklist

  function GroupCases(groups: seq<seq<Pattern>>): seq<Case> {
    if groups == [] then [] else AllOf(groups[0]) + GroupCases(groups[1..])
  }

  lemma {:induction false} GroupCasesConcat(g: seq<seq<Pattern>>, h: seq<seq<Pattern>>)
    ensures GroupCases(g + h) == GroupCases(g) + GroupCases(h)
  {
    if g == [] {
      assert g + h == h;
    } else {
      assert (g + h)[1..] == g[1..] + h;
      GroupCasesConcat(g[1..], h);
    }
  }

  lemma GroupCasesOne(g: seq<Pattern>)
    ensures GroupCases([g]) == AllOf(g)
  {
    assert [g][1..] == [];
  }

  function Split(cs: seq<Pattern>, rest: seq<Pattern>): seq<seq<Pattern>> {
    if cs == [] then [] else [[cs[0]] + rest] + Split(cs[1..], rest)
  }

  lemma {:induction false} SplitAppend(cs: seq<Pattern>, c: Pattern, rest: seq<Pattern>)
    ensures Split(cs + [c], rest) == Split(cs, rest) + [[c] + rest]
  {
    if cs == [] {
      assert cs + [c] == [c];
      assert Split([c], rest) == [[c] + rest] + Split([c][1..], rest);
    } else {
      assert (cs + [c])[1..] == cs[1..] + [c];
      SplitAppend(cs[1..], c, rest);
    }
  }

  lemma {:induction false} SplitCases(cs: seq<Pattern>, rest: seq<Pattern>)
    ensures GroupCases(Split(cs, rest)) == Product(AnyOf(cs), AllOf(rest))
  {
    if cs != [] {
      SplitCases(cs[1..], rest);
      GroupCasesConcat([[cs[0]] + rest], Split(cs[1..], rest));
      GroupCasesOne([cs[0]] + rest);
      AllOfConcat([cs[0]], rest);
      AllOfOne(cs[0]);
      ProductConcat(Cases(cs[0]), AnyOf(cs[1..]), AllOf(rest));
    }
  }

  /** The groups that replace a group whose first branch child is `child`. */
  function Expansion(child: Pattern, rest: seq<Pattern>): seq<seq<Pattern>>
    requires !child.Tip?
  {
    if child.Either? then Split(child.children, rest)
    else if child.OneOrMore? then [child.children + child.children + rest]
    else [child.children + rest]
  }

  lemma ExpansionCases(child: Pattern, rest: seq<Pattern>)
    requires !child.Tip?
    ensures GroupCases(Expansion(child, rest)) == Product(Cases(child), AllOf(rest))
  {
    if child.Either? {
      SplitCases(child.children, rest);
    } else {
      AllOfConcat(child.children, child.children);
      AllOfConcat(child.children + child.children, rest);
      AllOfConcat(child.children, rest);
      GroupCasesOne(child.children + child.children + rest);
      GroupCasesOne(child.children + rest);
    }
  }

  // ---------------------------------------------------------- termination

  /** Branch nodes left to expand; OneOrMore doubles what is below it. */
  ghost function Size(p: Pattern): nat {
    match p
    case Tip(_) => 0
    case OneOrMore(cs) => 1 + Sizes(cs) + Sizes(cs)
    case Required(cs) => 1 + Sizes(cs)
    case Optional(cs) => 1 + Sizes(cs)
    case OptionsShortcut(cs) => 1 + Sizes(cs)
    case Either(cs) => 1 + Sizes(cs)
  }

  ghost function Sizes(ps: seq<Pattern>): nat {
    if ps == [] then 0 else Size(ps[0]) + Sizes(ps[1..])
  }

  lemma {:induction false} SizesConcat(ps: seq<Pattern>, qs: seq<Pattern>)
    ensures Sizes(ps + qs) == Sizes(ps) + Sizes(qs)
  {
    if ps == [] {
      assert ps + qs == qs;
    } else {
      assert (ps + qs)[1..] == ps[1..] + qs;
      SizesConcat(ps[1..], qs);
    }
  }

  /** The largest number of alternatives of any Either in a tree. */
  ghost function Width(p: Pattern): nat {
    match p
    case Tip(_) => 0
    case Either(cs) => Max(|cs|, Widths(cs))
    case OneOrMore(cs) => Widths(cs)
    case Required(cs) => Widths(cs)
    case Optional(cs) => Widths(cs)
    case OptionsShortcut(cs) => Widths(cs)
  }

  ghost function Widths(ps: seq<Pattern>): nat {
    if ps == [] then 0 else Max(Width(ps[0]), Widths(ps[1..]))
  }

  lemma {:induction false} WidthsConcat(ps: seq<Pattern>, qs: seq<Pattern>)
    ensures Widths(ps + qs) == Max(Widths(ps), Widths(qs))
  {
    if ps == [] {
      assert ps + qs == qs;
    } else {
      assert (ps + qs)[1..] == ps[1..] + qs;
      WidthsConcat(ps[1..], qs);
    }
  }

  ghost function Pow(b: nat, n: nat): nat { if n == 0 then 1 else b * Pow(b, n - 1) }

  lemma {:induction false} PowMonotone(b: nat, m: nat, n: nat)
    requires b >= 1 && m <= n
    ensures 1 <= Pow(b, m) <= Pow(b, n)
    decreases n
  {
    if m == n {
      if n > 0 { PowMonotone(b, m - 1, n - 1); }
    } else {
      PowMonotone(b, m, n - 1);
    }
  }

  ghost predicate Narrow(groups: seq<seq<Pattern>>, w: nat) {
    forall i :: 0 <= i < |groups| ==> Widths(groups[i]) <= w
  }

  /** A bound on the rounds still to come: a group of size s counts (w+2)^s. */
  ghost function Weight(groups: seq<seq<Pattern>>, w: nat): nat {
    if groups == [] then 0 else Pow(w + 2, Sizes(groups[0])) + Weight(groups[1..], w)
  }

  lemma {:induction false} WeightConcat(g: seq<seq<Pattern>>, h: seq<seq<Pattern>>, w: nat)
    ensures Weight(g + h, w) == Weight(g, w) + Weight(h, w)
  {
    if g == [] {
      assert g + h == h;
    } else {
      assert (g + h)[1..] == g[1..] + h;
      WeightConcat(g[1..], h, w);
    }
  }

  lemma WeightOne(g: seq<Pattern>, w: nat)
    ensures Weight([g], w) == Pow(w + 2, Sizes(g))
  {
    assert [g][1..] == [];
  }

  lemma {:induction false} SplitNarrow(cs: seq<Pattern>, rest: seq<Pattern>, w: nat)
    requires Widths(cs) <= w && Widths(rest) <= w
    ensures Narrow(Split(cs, rest), w)
  {
    if cs != [] {
      SplitNarrow(cs[1..], rest, w);
      assert [cs[0]][1..] == [];
      WidthsConcat([cs[0]], rest);
    }
  }

  lemma {:induction false} SplitWeight(cs: seq<Pattern>, rest: seq<Pattern>, w: nat, s: nat)
    requires Sizes(cs) + Sizes(rest) <= s
    ensures Weight(Split(cs, rest), w) <= |cs| * Pow(w + 2, s)
  {
    if cs != [] {
      var head, tail := [cs[0]] + rest, Split(cs[1..], rest);
      SplitWeight(cs[1..], rest, w, s);
      assert ([head] + tail)[1..] == tail;
      assert [cs[0]][1..] == [];
      SizesConcat([cs[0]], rest);
      PowMonotone(w + 2, Sizes(head), s);
      MulSuccessor(|cs[1..]|, Pow(w + 2, s));
    }
  }

  lemma MulSuccessor(n: nat, x: nat)
    ensures (n + 1) * x == n * x + x
  {}

  lemma MulBelow(a: nat, w: nat, x: nat)
    requires a <= w + 1 && 1 <= x
    ensures a * x < (w + 2) * x
  {
    var d := w + 2 - a;
    assert (a + d) * x == a * x + d * x;
    MulSuccessor(d - 1, x);
  }

  /** Expanding a group makes its total weight strictly smaller, although
      OneOrMore copies its children and Either makes several groups of one. */
  lemma ExpansionWeight(child: Pattern, rest: seq<Pattern>, w: nat)
    requires !child.Tip? && Width(child) <= w
    ensures Weight(Expansion(child, rest), w) < Pow(w + 2, Size(child) + Sizes(rest))
  {
    var s := Size(child) + Sizes(rest) - 1;
    var cs := child.children;
    PowMonotone(w + 2, 0, s);
    assert Pow(w + 2, s + 1) == (w + 2) * Pow(w + 2, s);
    if child.Either? {
      SplitWeight(cs, rest, w, s);
      MulBelow(|cs|, w, Pow(w + 2, s));
    } else if child.OneOrMore? {
      SizesConcat(cs, cs);
      SizesConcat(cs + cs, rest);
      WeightOne(cs + cs + rest, w);
      MulBelow(1, w, Pow(w + 2, s));
    } else {
      SizesConcat(cs, rest);
      WeightOne(cs + rest, w);
      MulBelow(1, w, Pow(w + 2, s));
    }
  }

  lemma ExpansionNarrow(child: Pattern, rest: seq<Pattern>, w: nat)
    requires !child.Tip? && Width(child) <= w && Widths(rest) <= w
    ensures Narrow(Expansion(child, rest), w)
  {
    var cs := child.children;
    if child.Either? {
      SplitNarrow(cs, rest, w);
    } else {
      WidthsConcat(cs, cs);
      WidthsConcat(cs + cs, rest);
      WidthsConcat(cs, rest);
    }
  }

  /** What pulling the first branch child out of a group does to the measures. */
  lemma PullMeasures(tips: seq<Pattern>, child: Pattern, rest: seq<Pattern>)
    ensures Sizes(tips + [child] + rest) == Size(child) + Sizes(tips + rest)
    ensures Widths(tips + [child] + rest) == Max(Width(child), Widths(tips + rest))
  {
    assert [child][1..] == [];
    SizesConcat(tips + [child], rest);
    SizesConcat(tips, [child]);
    SizesConcat(tips, rest);
    WidthsConcat(tips + [child], rest);
    WidthsConcat(tips, [child]);
    WidthsConcat(tips, rest);
  }

  // ------------------------------------------------------------- transform

  /** The shape `transform` returns: one Either of Requireds of leaves. */
  ghost predicate IsDisjunction(p: Pattern) {
    p.Either? && forall i :: 0 <= i < |p.children| ==> p.children[i].Required? && AllTips(p.children[i].children)
  }

  function Requireds(groups: seq<seq<Pattern>>): (ps: seq<Pattern>)
    ensures |ps| == |groups|
    ensures forall i :: 0 <= i < |ps| ==> ps[i] == Required(groups[i])
  {
    seq(|groups|, i requires 0 <= i < |groups| => Required(groups[i]))
  }

  lemma {:induction false} AnyOfRequireds(groups: seq<seq<Pattern>>)
    ensures AnyOf(Requireds(groups)) == GroupCases(groups)
  {
    if groups != [] {
      AnyOfRequireds(groups[1..]);
      assert Requireds(groups)[1..] == Requireds(groups[1..]);
    }
  }

  /** One round of the worklist, on the group at the head. */
  lemma RoundKeepsCases(tips: seq<Pattern>, child: Pattern, rest: seq<Pattern>, queue: seq<seq<Pattern>>)
    requires AllTips(tips) && !child.Tip?
    ensures multiset(GroupCases(queue + Expansion(child, tips + rest)))
         == multiset(GroupCases([tips + [child] + rest] + queue))
  {
    var group := tips + [child] + rest;
    assert ([group] + queue)[1..] == queue;
    PullFront(tips, child, rest);
    ExpansionCases(child, tips + rest);
    GroupCasesConcat(queue, Expansion(child, tips + rest));
  }

  lemma RoundDescends(tips: seq<Pattern>, child: Pattern, rest: seq<Pattern>, queue: seq<seq<Pattern>>, w: nat)
    requires AllTips(tips) && !child.Tip?
    requires Widths(tips + [child] + rest) <= w && Narrow(queue, w)
    ensures Weight(queue + Expansion(child, tips + rest), w) < Weight([tips + [child] + rest] + queue, w)
    ensures Narrow(queue + Expansion(child, tips + rest), w)
  {
    var group := tips + [child] + rest;
    assert ([group] + queue)[1..] == queue;
    PullMeasures(tips, child, rest);
    ExpansionWeight(child, tips + rest, w);
    ExpansionNarrow(child, tips + rest, w);
    WeightConcat(queue, Expansion(child, tips + rest), w);
  }

  lemma LeafRoundKeepsCases(group: seq<Pattern>, queue: seq<seq<Pattern>>, w: nat)
    ensures multiset(GroupCases(queue)) + multiset(GroupCases([group])) == multiset(GroupCases([group] + queue))
    ensures Weight(queue, w) < Weight([group] + queue, w)
  {
    assert ([group] + queue)[1..] == queue;
    GroupCasesOne(group);
    PowMonotone(w + 2, 0, Sizes(group));
  }

  /** `[c for c in children if type(c) in parents][0]`, as a position. */
  method FirstBranch(children: seq<Pattern>) returns (i: nat)
    ensures i <= |children| && AllTips(children[..i])
    ensures i < |children| ==> !children[i].Tip?
  {
    i := 0;
    while i < |children| && children[i].Tip?
      invariant i <= |children| && AllTips(children[..i])
    {
      i := i + 1;
    }
  }

  /** The three appending branches of a round. */
  method Expand(groups: seq<seq<Pattern>>, child: Pattern, children: seq<Pattern>) returns (r: seq<seq<Pattern>>)
    requires !child.Tip?
    ensures r == groups + Expansion(child, children)
  {
    r := groups;
    if child.Either? {
      var cs := child.children;
      for k := 0 to |cs|
        invariant r == groups + Split(cs[..k], children)
      {
        SplitAppend(cs[..k], cs[k], children);
        assert cs[..k + 1] == cs[..k] + [cs[k]];
        r := r + [[cs[k]] + children];
      }
      assert cs[..|cs|] == cs;
    } else if child.OneOrMore? {
      r := r + [child.children + child.children + children];
    } else {
      r := r + [child.children + children];
    }
  }

  /** One round of the loop: the first group is either expanded in place of
      its first branch child, or is `done`. */
  method Round(groups0: seq<seq<Pattern>>, ghost w: nat) returns (groups: seq<seq<Pattern>>, done: seq<seq<Pattern>>)
    requires groups0 != [] && Narrow(groups0, w)
    ensures multiset(GroupCases(groups)) + multiset(GroupCases(done)) == multiset(GroupCases(groups0))
    ensures Weight(groups, w) < Weight(groups0, w) && Narrow(groups, w)
    ensures forall i :: 0 <= i < |done| ==> AllTips(done[i])
  {
    var children := groups0[0];
    groups := groups0[1..];
    assert groups0 == [children] + groups;
    var i := FirstBranch(children);
    if i < |children| {
      var child := children[i];
      ghost var tips, rest := children[..i], children[i + 1..];
      assert children == tips + [child] + rest;
      RoundKeepsCases(tips, child, rest, groups);
      RoundDescends(tips, child, rest, groups, w);
      groups := Expand(groups, child, children[..i] + children[i + 1..]);
      done := [];
    } else {
      assert children[..i] == children;
      LeafRoundKeepsCases(children, groups, w);
      done := [children];
    }
  }

  /** Nothing lost: pending groups and finished ones have the pattern's cases. */
  ghost predicate Complete(pattern: Pattern, groups: seq<seq<Pattern>>, result: seq<seq<Pattern>>) {
    multiset(GroupCases(groups)) + multiset(GroupCases(result)) == multiset(Cases(pattern))
  }

  lemma CompleteStart(pattern: Pattern)
    ensures Complete(pattern, [[pattern]], []) && Narrow([[pattern]], Width(pattern))
  {
    GroupCasesOne([pattern]);
    AllOfOne(pattern);
    assert Widths([pattern]) == Max(Width(pattern), Widths([pattern][1..]));
  }

  lemma CompleteEnd(pattern: Pattern, result: seq<seq<Pattern>>)
    requires Complete(pattern, [], result)
    ensures multiset(Cases(Either(Requireds(result)))) == multiset(Cases(pattern))
  {
    AnyOfRequireds(result);
  }

  lemma CompleteStep(pattern: Pattern, groups: seq<seq<Pattern>>, result: seq<seq<Pattern>>,
                     groups': seq<seq<Pattern>>, done: seq<seq<Pattern>>)
    requires Complete(pattern, groups, result)
    requires multiset(GroupCases(groups')) + multiset(GroupCases(done)) == multiset(GroupCases(groups))
    ensures Complete(pattern, groups', result + done)
  {
    GroupCasesConcat(result, done);
  }

  /** Terminates on every pattern and keeps its cases, as a multiset of
      multisets of leaves. */
  method Transform(pattern: Pattern) returns (r: Pattern)
    ensures IsDisjunction(r)
    ensures multiset(Cases(r)) == multiset(Cases(pattern))
  {
    var result: seq<seq<Pattern>> := [];
    var groups := [[pattern]];
    ghost var w := Width(pattern);
    CompleteStart(pattern);
    while groups != []
      invariant forall i :: 0 <= i < |result| ==> AllTips(result[i])
      invariant Complete(pattern, groups, result)
      invariant Narrow(groups, w)
      decreases Weight(groups, w)
    {
      var done;
      ghost var before := groups;
      groups, done := Round(groups, w);
      CompleteStep(pattern, before, result, groups, done);
      result := result + done;
    }
    CompleteEnd(pattern, result);
    r := Either(Requireds(result));
  }

  // ----------------------------------------------- repeated leaves

  function Larger(a: int, b: int): int { if a < b then b else a }

  function Plus(a: int, b: int): int { if a < 0 || b < 0 then -1 else a + b }

  /** The most often a leaf occurs in one case; -1 when there is no case. */
  ghost function Top(cs: seq<Case>, l: Leaf): int {
    if cs == [] then -1 else Larger(cs[0][l], Top(cs[1..], l))
  }

  lemma {:induction false} TopConcat(a: seq<Case>, b: seq<Case>, l: Leaf)
    ensures Top(a + b, l) == Larger(Top(a, l), Top(b, l))
  {
    TopBelow(b, l);
    if a == [] {
      assert a + b == b;
    } else {
      assert (a + b)[1..] == a[1..] + b;
      TopConcat(a[1..], b, l);
    }
  }

  lemma {:induction false} TopBelow(a: seq<Case>, l: Leaf)
    ensures Top(a, l) >= -1 && (Top(a, l) == -1 <==> a == [])
  {
    if a != [] { TopBelow(a[1..], l); }
  }

  lemma {:induction false} TopAdded(m: Case, b: seq<Case>, l: Leaf)
    ensures Top(Added(m, b), l) == Plus(m[l], Top(b, l))
  {
    if b != [] {
      TopAdded(m, b[1..], l);
      TopBelow(b[1..], l);
      assert Added(m, b)[1..] == Added(m, b[1..]);
    }
  }

  lemma {:induction false} TopProduct(a: seq<Case>, b: seq<Case>, l: Leaf)
    ensures Top(Product(a, b), l) == Plus(Top(a, l), Top(b, l))
  {
    if a != [] {
      TopProduct(a[1..], b, l);
      TopAdded(a[0], b, l);
      TopConcat(Added(a[0], b), Product(a[1..], b), l);
      TopBelow(a[1..], l);
      TopBelow(b, l);
    }
  }

  /** The same number read off the tree, without expanding it: sums over
      sequences, maxima over alternatives, twice under OneOrMore. */
  ghost function Uses(p: Pattern, l: Leaf): int {
    match p
    case Tip(k) => if k == l then 1 else 0
    case Either(cs) => UsesAny(cs, l)
    case OneOrMore(cs) => Plus(UsesAll(cs, l), UsesAll(cs, l))
    case Required(cs) => UsesAll(cs, l)
    case Optional(cs) => UsesAll(cs, l)
    case OptionsShortcut(cs) => UsesAll(cs, l)
  }

  ghost function UsesAll(ps: seq<Pattern>, l: Leaf): int {
    if ps == [] then 0 else Plus(Uses(ps[0], l), UsesAll(ps[1..], l))
  }

  ghost function UsesAny(ps: seq<Pattern>, l: Leaf): int {
    if ps == [] then -1 else Larger(Uses(ps[0], l), UsesAny(ps[1..], l))
  }

  lemma {:induction false} UsesIsTop(p: Pattern, l: Leaf)
    ensures Uses(p, l) == Top(Cases(p), l)
    decreases p, 1
  {
    match p
    case Tip(k) => assert Cases(p)[1..] == [];
    case Either(cs) => UsesAnyIsTop(cs, l);
    case OneOrMore(cs) =>
      UsesAllIsTop(cs, l);
      TopProduct(AllOf(cs), AllOf(cs), l);
    case Required(cs) => UsesAllIsTop(cs, l);
    case Optional(cs) => UsesAllIsTop(cs, l);
    case OptionsShortcut(cs) => UsesAllIsTop(cs, l);
  }

  lemma {:induction false} UsesAllIsTop(ps: seq<Pattern>, l: Leaf)
    ensures UsesAll(ps, l) == Top(AllOf(ps), l)
    decreases ps, 0
  {
    if ps == [] {
      assert AllOf(ps)[1..] == [];
    } else {
      UsesIsTop(ps[0], l);
      UsesAllIsTop(ps[1..], l);
      TopProduct(Cases(ps[0]), AllOf(ps[1..]), l);
    }
  }

  lemma {:induction false} UsesAnyIsTop(ps: seq<Pattern>, l: Leaf)
    ensures UsesAny(ps, l) == Top(AnyOf(ps), l)
    decreases ps, 0
  {
    if ps != [] {
      UsesIsTop(ps[0], l);
      UsesAnyIsTop(ps[1..], l);
      TopConcat(Cases(ps[0]), AnyOf(ps[1..]), l);
    }
  }

  lemma {:induction false} TopReached(cs: seq<Case>, l: Leaf, n: nat)
    ensures Top(cs, l) > n <==> exists c :: c in multiset(cs) && c[l] > n
  {
    if cs != [] {
      assert cs == [cs[0]] + cs[1..];
      TopReached(cs[1..], l, n);
      if Top(cs, l) > n {
        if cs[0][l] > n {
          assert cs[0] in multiset(cs);
        } else {
          var c :| c in multiset(cs[1..]) && c[l] > n;
          assert c in multiset(cs);
        }
      }
    }
  }

  lemma {:induction false} CasesOfDisjunction(ps: seq<Pattern>, c: Case)
    requires forall i :: 0 <= i < |ps| ==> ps[i].Required? && AllTips(ps[i].children)
    ensures c in multiset(AnyOf(ps)) <==>
            exists i :: 0 <= i < |ps| && c == multiset(LeavesOf(ps[i].children))
  {
    if ps != [] {
      CasesOfDisjunction(ps[1..], c);
      AllOfTips(ps[0].children);
      assert AnyOf(ps) == [multiset(LeavesOf(ps[0].children))] + AnyOf(ps[1..]);
      if c in multiset(AnyOf(ps[1..])) {
        var i :| 0 <= i < |ps[1..]| && c == multiset(LeavesOf(ps[1..][i].children));
        assert ps[i + 1] == ps[1..][i];
      }
      if exists i :: 0 < i < |ps| && c == multiset(LeavesOf(ps[i].children)) {
        var i :| 0 < i < |ps| && c == multiset(LeavesOf(ps[i].children));
        assert ps[1..][i - 1] == ps[i];
      }
    }
  }

  /** The leaves that `fix_repeating_arguments` turns into accumulating ones:
      those counted more than once in some case of the transformed pattern. */
  method RepeatedLeaves(pattern: Pattern) returns (r: set<Leaf>)
    ensures forall l :: l in r <==> Uses(pattern, l) > 1
  {
    r := {};
    var either := Transform(pattern);
    var cs := either.children;
    for i := 0 to |cs|
      invariant forall l :: l in r <==> exists j :: 0 <= j < i && multiset(LeavesOf(cs[j].children))[l] > 1
    {
      var leaves := LeavesOf(cs[i].children);
      r := r + set l | l in leaves && multiset(leaves)[l] > 1;
    }
    forall l ensures l in r <==> Uses(pattern, l) > 1 {
      RepeatedMeansUses(pattern, either, l);
    }
  }

  lemma RepeatedMeansUses(pattern: Pattern, either: Pattern, l: Leaf)
    requires IsDisjunction(either) && multiset(Cases(either)) == multiset(Cases(pattern))
    ensures Uses(pattern, l) > 1 <==>
            exists j :: 0 <= j < |either.children| && multiset(LeavesOf(either.children[j].children))[l] > 1
  {
    UsesIsTop(pattern, l);
    TopReached(Cases(pattern), l, 1);
    forall c ensures c in multiset(AnyOf(either.children)) <==>
        exists i :: 0 <= i < |either.children| && c == multiset(LeavesOf(either.children[i].children))
    {
      CasesOfDisjunction(either.children, c);
    }
  }
}
