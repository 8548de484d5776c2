/** The matcher of docopt: every pattern node tries to take items out of the
    argument vector `left` and to record names in `collected`. Which items are
    left and which names are recorded is modelled, not the values of options:
    an accumulating leaf writes them in place. */
module DocoptMatch {
  import opened DocoptPattern

  /** What `parse_argv` produces: unnamed arguments and options, these by name. */
  datatype Item = Positional(text: string) | Switch(name: string)

  datatype Outcome = Outcome(matched: bool, left: seq<Item>, collected: seq<string>)

  // ------------------------------------------------------------ leaves

  /** The items a leaf looks at: all positionals, or the options of its name. */
  datatype Key = AnyPositional | Named(name: string)

  function ItemKey(i: Item): Key {
    if i.Positional? then AnyPositional else Named(i.name)
  }

  function LeafKey(l: Leaf): Key {
    if l.Opt? then Named(l.Name()) else AnyPositional
  }

  predicate Accepts(l: Leaf, i: Item) {
    ItemKey(i) == LeafKey(l) && (l.Command? ==> i.text == l.cmdName)
  }

  function FirstWithKey(left: seq<Item>, k: Key): (n: nat)
    ensures n <= |left|
    ensures forall i :: 0 <= i < n ==> ItemKey(left[i]) != k
    ensures n < |left| ==> ItemKey(left[n]) == k
  {
    if left == [] then 0 else if ItemKey(left[0]) == k then 0 else 1 + FirstWithKey(left[1..], k)
  }

  function Recorded(collected: seq<string>, l: Leaf): seq<string> {
    if l.value.Accumulates() && l.Name() in collected then collected else collected + [l.Name()]
  }

  function LeafOutcome(l: Leaf, left: seq<Item>, collected: seq<string>): Outcome {
    var n := FirstWithKey(left, LeafKey(l));
    if n < |left| && Accepts(l, left[n])
    then Outcome(true, left[..n] + left[n + 1..], Recorded(collected, l))
    else Outcome(false, left, collected)
  }

  // ---------------------------------------------------------- branches

  /** The source asserts that OneOrMore has exactly one child. */
  predicate WellFormed(p: Pattern) {
    match p
    case Tip(_) => true
    case OneOrMore(cs) => |cs| == 1 && WellFormed(cs[0])
    case Required(cs) => AllWellFormed(cs)
    case Optional(cs) => AllWellFormed(cs)
    case OptionsShortcut(cs) => AllWellFormed(cs)
    case Either(cs) => AllWellFormed(cs)
  }

  predicate AllWellFormed(ps: seq<Pattern>) {
    ps == [] || (WellFormed(ps[0]) && AllWellFormed(ps[1..]))
  }

  /** The result of `match`, by recursion on the tree. */
  function MatchOf(p: Pattern, left: seq<Item>, collected: seq<string>): (o: Outcome)
    requires WellFormed(p)
    ensures |o.left| <= |left| && (|o.left| == |left| ==> o.left == left)
    ensures !o.matched ==> o.left == left && o.collected == collected
    decreases p, 0, 0
  {
    match p
    case Tip(l) => LeafOutcome(l, left, collected)
    case Required(cs) =>
      var o := MatchAll(cs, left, collected);
      if o.matched then o else Outcome(false, left, collected)
    case Optional(cs) => MatchEach(cs, left, collected)
    case OptionsShortcut(cs) => MatchEach(cs, left, collected)
    case OneOrMore(cs) =>
      var r := MatchRounds(cs[0], left, collected, true, 0);
      if r.times >= 1 then Outcome(true, r.left, r.collected) else Outcome(false, left, collected)
    case Either(cs) => MatchBest(cs, left, collected)
  }

  function MatchAll(ps: seq<Pattern>, left: seq<Item>, collected: seq<string>): (o: Outcome)
    requires AllWellFormed(ps)
    ensures |o.left| <= |left| && (|o.left| == |left| ==> o.left == left)
    decreases ps, 1, 0
  {
    if ps == [] then Outcome(true, left, collected) else
      var o := MatchOf(ps[0], left, collected);
      if o.matched then MatchAll(ps[1..], o.left, o.collected) else o
  }

  function MatchEach(ps: seq<Pattern>, left: seq<Item>, collected: seq<string>): (o: Outcome)
    requires AllWellFormed(ps)
    ensures o.matched
    ensures |o.left| <= |left| && (|o.left| == |left| ==> o.left == left)
    decreases ps, 1, 0
  {
    if ps == [] then Outcome(true, left, collected) else
      var o := MatchOf(ps[0], left, collected);
      MatchEach(ps[1..], o.left, o.collected)
  }

  /** The shortest remainder among the alternatives that match, the first one
      on a tie. */
  function MatchBest(ps: seq<Pattern>, left: seq<Item>, collected: seq<string>): (o: Outcome)
    requires AllWellFormed(ps)
    ensures |o.left| <= |left| && (|o.left| == |left| ==> o.left == left)
    ensures !o.matched ==> o.left == left && o.collected == collected
    decreases ps, 1, 0
  {
    if ps == [] then Outcome(false, left, collected) else
      var o := MatchOf(ps[0], left, collected);
      var r := MatchBest(ps[1..], left, collected);
      if o.matched && !(r.matched && |r.left| < |o.left|) then o else r
  }

  datatype Rounds = Rounds(left: seq<Item>, collected: seq<string>, times: nat, rounds: nat)

  /** The fixpoint loop of OneOrMore from a state where `l_` is still None
      (`first`) or equal to `left`. */
  function MatchRounds(p: Pattern, left: seq<Item>, collected: seq<string>, first: bool, times: nat): (r: Rounds)
    requires WellFormed(p)
    ensures |r.left| <= |left| && (|r.left| == |left| ==> r.left == left)
    ensures r.times >= times
    ensures r.rounds <= |left| + (if first then 2 else 1)
    decreases p, 1, |left| + (if first then 1 else 0)
  {
    var o := MatchOf(p, left, collected);
    var times' := times + if o.matched then 1 else 0;
    if !o.matched || (!first && o.left == left)
    then Rounds(o.left, o.collected, times', 1)
    else
      var r := MatchRounds(p, o.left, o.collected, false, times');
      r.(rounds := r.rounds + 1)
  }

  // ------------------------------------------------- the imperative matcher

  method SingleMatch(l: Leaf, left: seq<Item>) returns (n: nat, found: bool)
    ensures found <==> n < |left| && Accepts(l, left[n]) && n == FirstWithKey(left, LeafKey(l))
    ensures found <==> LeafOutcome(l, left, []).matched
    ensures l.Opt? ==>
              var spelling := Switch(if l.long != "" then l.long else l.short);
              && (found <==> spelling in left)
              && (found ==> n < |left| && left[n] == spelling && spelling !in left[..n])
    ensures l.Argument? ==>
              && (found <==> exists i :: 0 <= i < |left| && left[i].Positional?)
              && (found ==> n < |left| && left[n].Positional? && forall i :: 0 <= i < n ==> left[i].Switch?)
    ensures l.Command? && found ==>
              n < |left| && left[n] == Positional(l.cmdName) && forall i :: 0 <= i < n ==> left[i].Switch?
  {
    n := 0;
    found := false;
    while n < |left|
      invariant n <= |left| && !found
      invariant forall i :: 0 <= i < n ==> ItemKey(left[i]) != LeafKey(l)
    {
      match l {
        case Argument(_, _) =>
          if left[n].Positional? { return n, true; }
        case Command(name, _) =>
          if left[n].Positional? {
            if left[n].text == name { return n, true; } else { return |left|, false; }
          }
        case Opt(_, _, _, _) =>
          if left[n].Switch? && left[n].name == l.Name() { return n, true; }
      }
      n := n + 1;
    }
  }

  method Match(p: Pattern, left: seq<Item>, collected: seq<string>) returns (o: Outcome)
    requires WellFormed(p)
    ensures o == MatchOf(p, left, collected)
    decreases p, 0
  {
    match p {
      case Tip(leaf) =>
        var n, found := SingleMatch(leaf, left);
        if !found { return Outcome(false, left, collected); }
        return Outcome(true, left[..n] + left[n + 1..], Recorded(collected, leaf));
      case Required(cs) => o := MatchRequired(cs, left, collected);
      case Optional(cs) => o := MatchOptional(cs, left, collected);
      case OptionsShortcut(cs) => o := MatchOptional(cs, left, collected);
      case OneOrMore(cs) =>
        var rounds;
        o, rounds := MatchOneOrMore(cs[0], left, collected);
      case Either(cs) => o := MatchEither(cs, left, collected);
    }
  }

  lemma {:induction false} WellFormedAt(ps: seq<Pattern>, i: nat)
    requires AllWellFormed(ps) && i < |ps|
    ensures WellFormed(ps[i]) && AllWellFormed(ps[i..])
  {
    if i > 0 {
      WellFormedAt(ps[1..], i - 1);
      assert ps[1..][i - 1..] == ps[i..];
    } else {
      assert ps[0..] == ps;
    }
  }

  method MatchRequired(cs: seq<Pattern>, left: seq<Item>, collected: seq<string>) returns (o: Outcome)
    requires AllWellFormed(cs)
    ensures o == MatchOf(Required(cs), left, collected)
    decreases cs, 1
  {
    var l, c := left, collected;
    for i := 0 to |cs|
      invariant AllWellFormed(cs[i..])
      invariant MatchAll(cs[i..], l, c) == MatchAll(cs, left, collected)
    {
      WellFormedAt(cs, i);
      var m := Match(cs[i], l, c);
      assert cs[i..][0] == cs[i] && cs[i..][1..] == cs[i + 1..];
      if !m.matched { return Outcome(false, left, collected); }
      l, c := m.left, m.collected;
    }
    o := Outcome(true, l, c);
  }

  method MatchOptional(cs: seq<Pattern>, left0: seq<Item>, collected0: seq<string>) returns (o: Outcome)
    requires AllWellFormed(cs)
    ensures o == MatchOf(Optional(cs), left0, collected0)
    decreases cs, 1
  {
    var left, collected := left0, collected0;
    for i := 0 to |cs|
      invariant AllWellFormed(cs[i..])
      invariant MatchEach(cs[i..], left, collected) == MatchEach(cs, left0, collected0)
    {
      WellFormedAt(cs, i);
      var m := Match(cs[i], left, collected);
      assert cs[i..][0] == cs[i] && cs[i..][1..] == cs[i + 1..];
      left, collected := m.left, m.collected;
    }
    o := Outcome(true, left, collected);
  }

  datatype Previous = Nothing | Seen(left: seq<Item>)

  /** Ends within |left| + 2 rounds, whatever is nested inside the child. */
  method MatchOneOrMore(child: Pattern, left: seq<Item>, collected: seq<string>) returns (o: Outcome, rounds: nat)
    requires WellFormed(child)
    ensures o == MatchOf(OneOrMore([child]), left, collected)
    ensures rounds <= |left| + 2
    decreases child, 1
  {
    var l, c := left, collected;
    var previous := Nothing;
    var matched := true;
    var times := 0;
    rounds := 0;
    ghost var goal := MatchRounds(child, left, collected, true, 0);
    while matched
      invariant previous.Seen? ==> previous.left == l
      invariant matched ==> goal == RoundsFrom(child, l, c, previous.Nothing?, times, rounds)
      invariant !matched ==> goal == Rounds(l, c, times, rounds)
      decreases matched, |l| + (if previous.Nothing? then 1 else 0)
    {
      var m := Match(child, l, c);
      matched, l, c := m.matched, m.left, m.collected;
      rounds := rounds + 1;
      times := times + if matched then 1 else 0;
      if previous == Seen(l) { break; }
      previous := Seen(l);
    }
    assert goal == Rounds(l, c, times, rounds);
    if times >= 1 { return Outcome(true, l, c), rounds; }
    return Outcome(false, left, collected), rounds;
  }

  ghost function RoundsFrom(p: Pattern, left: seq<Item>, collected: seq<string>, first: bool, times: nat,
                            done: nat): Rounds
    requires WellFormed(p)
  {
    var r := MatchRounds(p, left, collected, first, times);
    r.(rounds := r.rounds + done)
  }

  /** `min(outcomes, key=len)`: the first of the shortest. */
  ghost function FirstShortest(os: seq<Outcome>): Outcome
    requires os != []
  {
    if |os| == 1 then os[0] else
      var r := FirstShortest(os[1..]);
      if |r.left| < |os[0].left| then r else os[0]
  }

  ghost function Matching(cs: seq<Pattern>, left: seq<Item>, collected: seq<string>): seq<Outcome>
    requires AllWellFormed(cs)
  {
    if cs == [] then [] else
      var o := MatchOf(cs[0], left, collected);
      (if o.matched then [o] else []) + Matching(cs[1..], left, collected)
  }

  lemma {:induction false} BestIsFirstShortest(cs: seq<Pattern>, left: seq<Item>, collected: seq<string>)
    requires AllWellFormed(cs)
    ensures var os := Matching(cs, left, collected);
            MatchBest(cs, left, collected) == if os == [] then Outcome(false, left, collected) else FirstShortest(os)
    ensures forall o :: o in Matching(cs, left, collected) ==> o.matched
  {
    if cs != [] {
      BestIsFirstShortest(cs[1..], left, collected);
      var o := MatchOf(cs[0], left, collected);
      var os := Matching(cs, left, collected);
      if o.matched {
        assert os[1..] == Matching(cs[1..], left, collected);
      } else {
        assert os == Matching(cs[1..], left, collected);
      }
      ShortestIsMember(os);
      ShortestIsMember(Matching(cs[1..], left, collected));
    }
  }

  lemma {:induction false} ShortestIsMember(os: seq<Outcome>)
    ensures os != [] ==> FirstShortest(os) in os
  {
    if |os| > 1 { ShortestIsMember(os[1..]); }
  }

  method MatchEither(cs: seq<Pattern>, left: seq<Item>, collected: seq<string>) returns (o: Outcome)
    requires AllWellFormed(cs)
    ensures o == MatchOf(Either(cs), left, collected)
    decreases cs, 2
  {
    var outcomes := MatchingOutcomes(cs, left, collected);
    BestIsFirstShortest(cs, left, collected);
    if outcomes != [] {
      o := Shortest(outcomes);
    } else {
      o := Outcome(false, left, collected);
    }
  }

  lemma MatchingStep(done: seq<Outcome>, cs: seq<Pattern>, left: seq<Item>, collected: seq<string>)
    requires cs != [] && AllWellFormed(cs)
    ensures var o := MatchOf(cs[0], left, collected);
            done + Matching(cs, left, collected)
            == (if o.matched then done + [o] else done) + Matching(cs[1..], left, collected)
  {
    var o := MatchOf(cs[0], left, collected);
    var more := Matching(cs[1..], left, collected);
    if o.matched {
      assert done + ([o] + more) == done + [o] + more;
    } else {
      assert [] + more == more;
    }
  }

  method MatchingOutcomes(cs: seq<Pattern>, left: seq<Item>, collected: seq<string>) returns (outcomes: seq<Outcome>)
    requires AllWellFormed(cs)
    ensures outcomes == Matching(cs, left, collected)
    decreases cs, 1
  {
    hide MatchOf;
    outcomes := [];
    ghost var rest := cs;
    for i := 0 to |cs|
      invariant rest == cs[i..] && AllWellFormed(rest)
      invariant outcomes + Matching(rest, left, collected) == Matching(cs, left, collected)
    {
      assert cs[i] == rest[0];
      var outcome := Match(cs[i], left, collected);
      MatchingStep(outcomes, rest, left, collected);
      if outcome.matched { outcomes := outcomes + [outcome]; }
      rest := rest[1..];
    }
  }

  method Shortest(os: seq<Outcome>) returns (o: Outcome)
    requires os != []
    ensures o == FirstShortest(os)
  {
    var i := |os| - 1;
    o := os[i];
    while i > 0
      invariant 0 <= i < |os| && o == FirstShortest(os[i..])
    {
      i := i - 1;
      assert os[i..][1..] == os[i + 1..];
      if |os[i].left| <= |o.left| { o := os[i]; }
    }
    assert os[0..] == os;
  }

  // ---------------------------------------- what a leaf takes, in so many words

  /** The name recorded: once only for a leaf whose value is a number or a list. */
  predicate RecordsAs(value: Value, name: string, c: seq<string>, c': seq<string>) {
    c' == if (value.Count? || value.Texts?) && name in c then c else c + [name]
  }

  /** An option with a long spelling is known by that, else by the short one: it
      takes the first option so spelled, leaves the rest and records that name. */
  lemma OptionTakes(short: string, long: string, argcount: nat, value: Value, left: seq<Item>, c: seq<string>, n: nat)
    requires var s := Switch(if long != "" then long else short);
             n < |left| && left[n] == s && s !in left[..n]
    ensures var o := MatchOf(Tip(Opt(short, long, argcount, value)), left, c);
            && o.matched && o.left == left[..n] + left[n + 1..]
            && RecordsAs(value, if long != "" then long else short, c, o.collected)
  {
    FirstAt(left, Named(left[n].name), n);
  }

  lemma OptionMisses(short: string, long: string, argcount: nat, value: Value, left: seq<Item>, c: seq<string>)
    requires Switch(if long != "" then long else short) !in left
    ensures MatchOf(Tip(Opt(short, long, argcount, value)), left, c) == Outcome(false, left, c)
  {
    var k := Named(if long != "" then long else short);
    forall i | 0 <= i < |left| ensures ItemKey(left[i]) != k { assert left[i] in left; }
  }

  /** An argument takes the first positional item, whatever it is. */
  lemma ArgumentTakes(name: string, value: Value, left: seq<Item>, c: seq<string>, n: nat)
    requires n < |left| && left[n].Positional? && forall i :: 0 <= i < n ==> left[i].Switch?
    ensures var o := MatchOf(Tip(Argument(name, value)), left, c);
            o.matched && o.left == left[..n] + left[n + 1..] && RecordsAs(value, name, c, o.collected)
  {
    FirstAt(left, AnyPositional, n);
  }

  /** A command takes the first positional item if it is the command's name. */
  lemma CommandTakes(name: string, value: Value, left: seq<Item>, c: seq<string>, n: nat)
    requires n < |left| && left[n].Positional? && forall i :: 0 <= i < n ==> left[i].Switch?
    ensures var o := MatchOf(Tip(Command(name, value)), left, c);
            if left[n].text == name
            then o.matched && o.left == left[..n] + left[n + 1..] && RecordsAs(value, name, c, o.collected)
            else o == Outcome(false, left, c)
  {
    FirstAt(left, AnyPositional, n);
  }

  /** Without a positional item there is nothing for either. */
  lemma PositionalMisses(l: Leaf, left: seq<Item>, c: seq<string>)
    requires !l.Opt? && forall i :: 0 <= i < |left| ==> left[i].Switch?
    ensures MatchOf(Tip(l), left, c) == Outcome(false, left, c)
  {}

  lemma {:induction false} FirstAt(left: seq<Item>, k: Key, n: nat)
    requires n < |left| && ItemKey(left[n]) == k && forall i :: 0 <= i < n ==> ItemKey(left[i]) != k
    ensures FirstWithKey(left, k) == n
  {
    if n > 0 { FirstAt(left[1..], k, n - 1); }
  }

  // ---------------------------------------------------------- derivations

  /** An item taken out of `left` by a leaf. */
  datatype Taken = Taken(leaf: Leaf, item: Item)

  /** The words a pattern stands for, with no mention of how it is matched. */
  ghost predicate Derives(p: Pattern, w: seq<Taken>)
    decreases p, 0, 0
  {
    match p
    case Tip(l) => |w| == 1 && w[0].leaf == l && Accepts(l, w[0].item)
    case Required(cs) => DerivesAll(cs, w)
    case Optional(cs) => DerivesEach(cs, w)
    case OptionsShortcut(cs) => DerivesEach(cs, w)
    case OneOrMore(cs) => |cs| == 1 && exists n :: DerivesTimes(cs[0], n, w)
    case Either(cs) => exists i :: 0 <= i < |cs| && Derives(cs[i], w)
  }

  ghost predicate DerivesAll(ps: seq<Pattern>, w: seq<Taken>)
    decreases ps, 1, 0
  {
    if ps == [] then w == [] else
      exists k :: 0 <= k <= |w| && Derives(ps[0], w[..k]) && DerivesAll(ps[1..], w[k..])
  }

  ghost predicate DerivesEach(ps: seq<Pattern>, w: seq<Taken>)
    decreases ps, 1, 0
  {
    if ps == [] then w == [] else
      exists k :: 0 <= k <= |w| && (w[..k] == [] || Derives(ps[0], w[..k])) && DerivesEach(ps[1..], w[k..])
  }

  /** n + 1 words of `p`, one after the other. */
  ghost predicate DerivesTimes(p: Pattern, n: nat, w: seq<Taken>)
    decreases p, 1, n
  {
    if n == 0 then Derives(p, w) else
      exists k :: 0 <= k <= |w| && Derives(p, w[..k]) && DerivesTimes(p, n - 1, w[k..])
  }

  lemma DerivesAllCons(ps: seq<Pattern>, v: seq<Taken>, w: seq<Taken>)
    requires ps != [] && Derives(ps[0], v) && DerivesAll(ps[1..], w)
    ensures DerivesAll(ps, v + w)
  {
    assert (v + w)[..|v|] == v && (v + w)[|v|..] == w;
  }

  lemma DerivesEachCons(ps: seq<Pattern>, v: seq<Taken>, w: seq<Taken>)
    requires ps != [] && (v == [] || Derives(ps[0], v)) && DerivesEach(ps[1..], w)
    ensures DerivesEach(ps, v + w)
  {
    assert (v + w)[..|v|] == v && (v + w)[|v|..] == w;
  }

  lemma DerivesTimesCons(p: Pattern, n: nat, v: seq<Taken>, w: seq<Taken>)
    requires Derives(p, v) && DerivesTimes(p, n, w)
    ensures DerivesTimes(p, n + 1, v + w)
  {
    assert (v + w)[..|v|] == v && (v + w)[|v|..] == w;
  }

  // ------------------------------------------------- what matching consumes

  function Items(w: seq<Taken>): (r: seq<Item>)
    ensures |r| == |w| && forall i :: 0 <= i < |r| ==> r[i] == w[i].item
  {
    seq(|w|, i requires 0 <= i < |w| => w[i].item)
  }

  /** The items of one key, in order. */
  function Only(left: seq<Item>, k: Key): seq<Item> {
    if left == [] then [] else (if ItemKey(left[0]) == k then [left[0]] else []) + Only(left[1..], k)
  }

  lemma {:induction false} OnlyConcat(a: seq<Item>, b: seq<Item>, k: Key)
    ensures Only(a + b, k) == Only(a, k) + Only(b, k)
  {
    if a == [] {
      assert a + b == b;
    } else {
      var head := if ItemKey(a[0]) == k then [a[0]] else [];
      assert (a + b)[1..] == a[1..] + b;
      OnlyConcat(a[1..], b, k);
      assert head + (Only(a[1..], k) + Only(b, k)) == head + Only(a[1..], k) + Only(b, k);
    }
  }

  lemma {:induction false} OnlyNone(a: seq<Item>, k: Key)
    requires forall i :: 0 <= i < |a| ==> ItemKey(a[i]) != k
    ensures Only(a, k) == []
  {
    if a != [] { OnlyNone(a[1..], k); }
  }

  /** `kept` lists, in increasing order, the positions of `b` that form `a`. */
  ghost predicate Embeds(kept: seq<nat>, a: seq<Item>, b: seq<Item>) {
    && |kept| == |a|
    && (forall i :: 0 <= i < |kept| ==> kept[i] < |b| && a[i] == b[kept[i]])
    && (forall i, j :: 0 <= i < j < |kept| ==> kept[i] < kept[j])
  }

  ghost predicate Subsequence(a: seq<Item>, b: seq<Item>) {
    exists kept :: Embeds(kept, a, b)
  }

  lemma SubsequenceRefl(a: seq<Item>)
    ensures Subsequence(a, a)
  {
    assert Embeds(seq(|a|, i => i), a, a);
  }

  lemma SubsequenceTrans(a: seq<Item>, b: seq<Item>, c: seq<Item>)
    requires Subsequence(a, b) && Subsequence(b, c)
    ensures Subsequence(a, c)
  {
    var f :| Embeds(f, a, b);
    var g :| Embeds(g, b, c);
    assert Embeds(seq(|f|, i requires 0 <= i < |f| => g[f[i]]), a, c);
  }

  lemma SubsequenceDrop(a: seq<Item>, n: nat)
    requires n < |a|
    ensures Subsequence(a[..n] + a[n + 1..], a)
  {
    var kept := seq(|a| - 1, i => if i < n then i else i + 1);
    assert Embeds(kept, a[..n] + a[n + 1..], a);
  }

  /** Going from `left` to `rest` takes exactly the items of `w`: nothing else
      is lost, what stays keeps its order, and the items of every key are taken
      from the front, in the order of the word. */
  ghost predicate Consumes(left: seq<Item>, w: seq<Taken>, rest: seq<Item>) {
    && multiset(left) == multiset(Items(w)) + multiset(rest)
    && Subsequence(rest, left)
    && InOrder(left, Items(w), rest)
  }

  ghost predicate InOrder(left: seq<Item>, taken: seq<Item>, rest: seq<Item>) {
    forall k :: Only(left, k) == Only(taken, k) + Only(rest, k)
  }

  lemma InOrderNothing(left: seq<Item>)
    ensures InOrder(left, [], left)
  {
    forall k ensures Only(left, k) == Only([], k) + Only(left, k) {
      var rest := Only(left, k);
      assert Only([], k) == [];
      assert [] + rest == rest;
    }
  }

  lemma InOrderTrans(a: seq<Item>, v: seq<Item>, b: seq<Item>, w: seq<Item>, c: seq<Item>)
    requires InOrder(a, v, b) && InOrder(b, w, c)
    ensures InOrder(a, v + w, c)
  {
    forall k ensures Only(a, k) == Only(v + w, k) + Only(c, k) {
      OnlyConcat(v, w, k);
      assert Only(v, k) + (Only(w, k) + Only(c, k)) == Only(v, k) + Only(w, k) + Only(c, k);
    }
  }

  lemma ConsumesNothing(left: seq<Item>)
    ensures Consumes(left, [], left)
  {
    SubsequenceRefl(left);
    InOrderNothing(left);
    assert Items([]) == [];
  }

  lemma ExplainsNothing(left: seq<Item>, collected: seq<string>, o: Outcome)
    requires o.left == left && o.collected == collected
    ensures Explains([], left, collected, o)
  {
    ConsumesNothing(left);
  }

  lemma ConsumesTrans(a: seq<Item>, v: seq<Taken>, b: seq<Item>, w: seq<Taken>, c: seq<Item>)
    requires Consumes(a, v, b) && Consumes(b, w, c)
    ensures Consumes(a, v + w, c)
  {
    assert Items(v + w) == Items(v) + Items(w);
    SubsequenceTrans(c, b, a);
    InOrderTrans(a, Items(v), b, Items(w), c);
  }

  lemma InOrderFirst(before: seq<Item>, x: Item, after: seq<Item>)
    requires forall i :: 0 <= i < |before| ==> ItemKey(before[i]) != ItemKey(x)
    ensures InOrder(before + [x] + after, [x], before + after)
  {
    forall k ensures Only(before + [x] + after, k) == Only([x], k) + Only(before + after, k) {
      OnlyFirst(before, x, after, k);
    }
  }

  lemma OnlyFirst(before: seq<Item>, x: Item, after: seq<Item>, k: Key)
    requires forall i :: 0 <= i < |before| ==> ItemKey(before[i]) != ItemKey(x)
    ensures Only(before + [x] + after, k) == Only([x], k) + Only(before + after, k)
  {
    OnlyConcat(before + [x], after, k);
    OnlyConcat(before, [x], k);
    OnlyConcat(before, after, k);
    if k == ItemKey(x) { OnlyNone(before, k); } else { OnlyNone([x], k); }
  }

  lemma ConsumesOne(before: seq<Item>, l: Leaf, x: Item, after: seq<Item>)
    requires forall i :: 0 <= i < |before| ==> ItemKey(before[i]) != ItemKey(x)
    ensures Consumes(before + [x] + after, [Taken(l, x)], before + after)
  {
    var left := before + [x] + after;
    assert Items([Taken(l, x)]) == [x];
    SubsequenceDrop(left, |before|);
    assert left[..|before|] == before && left[|before| + 1..] == after;
    InOrderFirst(before, x, after);
  }

  /** The names recorded for a word, one leaf after the other. */
  function Collect(collected: seq<string>, w: seq<Taken>): seq<string>
    decreases |w|
  {
    if w == [] then collected else Collect(Recorded(collected, w[0].leaf), w[1..])
  }

  lemma {:induction false} CollectConcat(collected: seq<string>, v: seq<Taken>, w: seq<Taken>)
    ensures Collect(collected, v + w) == Collect(Collect(collected, v), w)
    decreases |v|
  {
    if v == [] {
      assert v + w == w;
    } else {
      assert (v + w)[1..] == v[1..] + w;
      CollectConcat(Recorded(collected, v[0].leaf), v[1..], w);
    }
  }

  /** `o` is what taking the word `w` out of `left` leads to. */
  ghost predicate Explains(w: seq<Taken>, left: seq<Item>, collected: seq<string>, o: Outcome) {
    Consumes(left, w, o.left) && o.collected == Collect(collected, w)
  }

  lemma ExplainsTrans(v: seq<Taken>, w: seq<Taken>, left: seq<Item>, collected: seq<string>, m: Outcome, o: Outcome)
    requires Explains(v, left, collected, m) && Explains(w, m.left, m.collected, o)
    ensures Explains(v + w, left, collected, o)
  {
    ConsumesTrans(left, v, m.left, w, o.left);
    CollectConcat(collected, v, w);
  }

  // ---------------------------------------------------------- soundness

  /** A successful match takes a word the pattern derives. */
  lemma {:induction false} MatchSound(p: Pattern, left: seq<Item>, collected: seq<string>) returns (w: seq<Taken>)
    requires WellFormed(p) && MatchOf(p, left, collected).matched
    ensures Derives(p, w) && Explains(w, left, collected, MatchOf(p, left, collected))
    decreases p, 0, 0
  {
    match p {
      case Tip(l) =>
        var n := FirstWithKey(left, LeafKey(l));
        w := [Taken(l, left[n])];
        ConsumesOne(left[..n], l, left[n], left[n + 1..]);
        assert left == left[..n] + [left[n]] + left[n + 1..];
        assert Collect(collected, w) == Collect(Recorded(collected, l), w[1..]);
      case Required(cs) => w := AllSound(cs, left, collected);
      case Optional(cs) => w := EachSound(cs, left, collected);
      case OptionsShortcut(cs) => w := EachSound(cs, left, collected);
      case OneOrMore(cs) =>
        var n;
        n, w := RoundsSound(cs[0], left, collected, true, 0);
      case Either(cs) =>
        var i;
        i, w := BestSound(cs, left, collected);
    }
  }

  lemma {:induction false} AllSound(ps: seq<Pattern>, left: seq<Item>, collected: seq<string>) returns (w: seq<Taken>)
    requires AllWellFormed(ps) && MatchAll(ps, left, collected).matched
    ensures DerivesAll(ps, w) && Explains(w, left, collected, MatchAll(ps, left, collected))
    decreases ps, 1, 0
  {
    if ps == [] {
      w := [];
      ExplainsNothing(left, collected, Outcome(true, left, collected));
    } else {
      var o := MatchOf(ps[0], left, collected);
      var v := MatchSound(ps[0], left, collected);
      var u := AllSound(ps[1..], o.left, o.collected);
      w := v + u;
      ExplainsTrans(v, u, left, collected, o, MatchAll(ps, left, collected));
      DerivesAllCons(ps, v, u);
    }
  }

  lemma {:induction false} EachSound(ps: seq<Pattern>, left: seq<Item>, collected: seq<string>) returns (w: seq<Taken>)
    requires AllWellFormed(ps)
    ensures DerivesEach(ps, w) && Explains(w, left, collected, MatchEach(ps, left, collected))
    decreases ps, 1, 0
  {
    if ps == [] {
      w := [];
      ExplainsNothing(left, collected, Outcome(true, left, collected));
    } else {
      var o := MatchOf(ps[0], left, collected);
      var v := [];
      if o.matched {
        v := MatchSound(ps[0], left, collected);
      } else {
        ExplainsNothing(left, collected, o);
      }
      var u := EachSound(ps[1..], o.left, o.collected);
      w := v + u;
      ExplainsTrans(v, u, left, collected, o, MatchEach(ps, left, collected));
      DerivesEachCons(ps, v, u);
    }
  }

  lemma {:induction false} BestSound(ps: seq<Pattern>, left: seq<Item>, collected: seq<string>)
    returns (i: nat, w: seq<Taken>)
    requires AllWellFormed(ps) && MatchBest(ps, left, collected).matched
    ensures i < |ps| && Derives(ps[i], w) && Explains(w, left, collected, MatchBest(ps, left, collected))
    decreases ps, 1, 0
  {
    var o := MatchOf(ps[0], left, collected);
    var r := MatchBest(ps[1..], left, collected);
    if o.matched && !(r.matched && |r.left| < |o.left|) {
      i := 0;
      w := MatchSound(ps[0], left, collected);
    } else {
      i, w := BestSound(ps[1..], left, collected);
      i := i + 1;
    }
  }

  ghost function RoundsOutcome(p: Pattern, left: seq<Item>, collected: seq<string>, first: bool, times: nat): Outcome
    requires WellFormed(p)
  {
    var r := MatchRounds(p, left, collected, first, times);
    Outcome(true, r.left, r.collected)
  }

  /** A round that ends the loop, or whose next round does not count. */
  lemma LastRound(p: Pattern, left: seq<Item>, collected: seq<string>, first: bool, times: nat)
    requires WellFormed(p) && MatchOf(p, left, collected).matched
    requires MatchRounds(p, left, collected, first, times).times == times + 1
    ensures RoundsOutcome(p, left, collected, first, times) == MatchOf(p, left, collected)
  {
    var o := MatchOf(p, left, collected);
    if first || o.left != left {
      NoMoreTimes(p, o.left, o.collected, times + 1);
    }
  }

  lemma MoreRounds(p: Pattern, left: seq<Item>, collected: seq<string>, first: bool, times: nat)
    requires WellFormed(p) && MatchRounds(p, left, collected, first, times).times > times + 1
    ensures var o := MatchOf(p, left, collected);
            && o.matched
            && (first || |o.left| < |left|)
            && MatchRounds(p, o.left, o.collected, false, times + 1).times > times + 1
            && RoundsOutcome(p, o.left, o.collected, false, times + 1)
               == RoundsOutcome(p, left, collected, first, times)
  {}

  /** The rounds of the loop that matched, as words of the child. */
  lemma {:induction false} RoundsSound(p: Pattern, left: seq<Item>, collected: seq<string>, first: bool, times: nat)
    returns (n: nat, w: seq<Taken>)
    requires WellFormed(p)
    requires MatchRounds(p, left, collected, first, times).times > times
    ensures DerivesTimes(p, n, w)
    ensures Explains(w, left, collected, RoundsOutcome(p, left, collected, first, times))
    decreases p, 1, |left| + (if first then 1 else 0)
  {
    hide Explains, Derives;
    var o := MatchOf(p, left, collected);
    var v := MatchSound(p, left, collected);
    if MatchRounds(p, left, collected, first, times).times == times + 1 {
      LastRound(p, left, collected, first, times);
      n, w := 0, v;
    } else {
      MoreRounds(p, left, collected, first, times);
      var m, u := RoundsSound(p, o.left, o.collected, false, times + 1);
      DerivesTimesCons(p, m, v, u);
      ExplainsTrans(v, u, left, collected, o, RoundsOutcome(p, left, collected, first, times));
      n, w := m + 1, v + u;
    }
  }

  /** A later round that does not count leaves everything as it was. */
  lemma NoMoreTimes(p: Pattern, left: seq<Item>, collected: seq<string>, times: nat)
    requires WellFormed(p) && MatchRounds(p, left, collected, false, times).times == times
    ensures var r := MatchRounds(p, left, collected, false, times); r.left == left && r.collected == collected
  {
    assert !MatchOf(p, left, collected).matched;
  }

  /** Both answers of `match` for every pattern and argument list: a success
      takes a derived word and leaves the rest in order, a failure gives back
      `left` and the names in `collected` unchanged. */
  lemma MatchMeaning(p: Pattern, left: seq<Item>, collected: seq<string>)
    requires WellFormed(p)
    ensures var o := MatchOf(p, left, collected);
            if o.matched then exists w :: Derives(p, w) && Explains(w, left, collected, o)
            else o == Outcome(false, left, collected)
  {
    if MatchOf(p, left, collected).matched {
      var w := MatchSound(p, left, collected);
    }
  }

  /** The acceptance test of `docopt`: a matched pattern with nothing left over
      derives the whole argument vector, with its positionals in order. */
  lemma AcceptedIsDerived(p: Pattern, argv: seq<Item>) returns (w: seq<Taken>)
    requires WellFormed(p)
    requires MatchOf(p, argv, []).matched && MatchOf(p, argv, []).left == []
    ensures Derives(p, w) && multiset(Items(w)) == multiset(argv)
    ensures forall k :: Only(argv, k) == Only(Items(w), k)
    ensures MatchOf(p, argv, []).collected == Collect([], w)
  {
    w := MatchSound(p, argv, []);
    forall k ensures Only(argv, k) == Only(Items(w), k) {
      assert Only([], k) == [];
    }
  }

  // ------------------------------------------------- what is recorded

  function Occurrences(names: seq<string>, n: string): nat { multiset(names)[n] }

  /** What a word leaves in `collected`: the old names stay in front, the names
      are the old ones and those of the word, and a name that only accumulating
      leaves carry is not recorded a second time. */
  lemma {:induction false} CollectMeaning(collected: seq<string>, w: seq<Taken>, n: string)
    ensures collected <= Collect(collected, w)
    ensures n in Collect(collected, w) <==> n in collected || exists i :: 0 <= i < |w| && w[i].leaf.Name() == n
    ensures (forall i :: 0 <= i < |w| && w[i].leaf.Name() == n ==> w[i].leaf.value.Accumulates()) ==>
              Occurrences(Collect(collected, w), n)
              == if n in collected then Occurrences(collected, n) else if n in Collect(collected, w) then 1 else 0
    decreases |w|
  {
    if w != [] {
      var next := Recorded(collected, w[0].leaf);
      assert forall i :: 0 <= i < |w[1..]| ==> w[1..][i] == w[i + 1];
      CollectMeaning(next, w[1..], n);
      CollectTail(w, n);
    }
  }

  lemma CollectTail(w: seq<Taken>, n: string)
    requires w != []
    ensures (exists i :: 0 <= i < |w| && w[i].leaf.Name() == n) <==>
            w[0].leaf.Name() == n || exists i :: 0 <= i < |w[1..]| && w[1..][i].leaf.Name() == n
  {
    if exists i :: 0 < i < |w| && w[i].leaf.Name() == n {
      var i :| 0 < i < |w| && w[i].leaf.Name() == n;
      assert w[1..][i - 1] == w[i];
    }
    if exists i :: 0 <= i < |w[1..]| && w[1..][i].leaf.Name() == n {
      var i :| 0 <= i < |w[1..]| && w[1..][i].leaf.Name() == n;
      assert w[i + 1] == w[1..][i];
    }
  }

  // -------------------------------------------------- what the choices give

  /** Required is one child after the other, all or nothing. */
  lemma {:induction false} RequiredConcat(ps: seq<Pattern>, qs: seq<Pattern>, left: seq<Item>, collected: seq<string>)
    requires AllWellFormed(ps) && AllWellFormed(qs)
    ensures AllWellFormed(ps + qs)
    ensures var o := MatchOf(Required(ps), left, collected);
            var r := MatchOf(Required(qs), o.left, o.collected);
            MatchOf(Required(ps + qs), left, collected)
            == if o.matched && r.matched then r else Outcome(false, left, collected)
    decreases |ps|
  {
    if ps == [] {
      assert ps + qs == qs;
    } else {
      assert (ps + qs)[1..] == ps[1..] + qs;
      var o := MatchOf(ps[0], left, collected);
      RequiredConcat(ps[1..], qs, o.left, o.collected);
    }
  }

  /** Optional gives every child its turn on what the others left. */
  lemma {:induction false} OptionalConcat(ps: seq<Pattern>, qs: seq<Pattern>, left: seq<Item>, collected: seq<string>)
    requires AllWellFormed(ps) && AllWellFormed(qs)
    ensures AllWellFormed(ps + qs)
    ensures var o := MatchOf(Optional(ps), left, collected);
            MatchOf(Optional(ps + qs), left, collected) == MatchOf(Optional(qs), o.left, o.collected)
    decreases |ps|
  {
    if ps == [] {
      assert ps + qs == qs;
    } else {
      assert (ps + qs)[1..] == ps[1..] + qs;
      var o := MatchOf(ps[0], left, collected);
      OptionalConcat(ps[1..], qs, o.left, o.collected);
    }
  }

  /** Same verdict and same remainder. */
  predicate SameEffect(o: Outcome, q: Outcome) { o.matched == q.matched && o.left == q.left }

  /** What has been collected never influences what is matched. */
  lemma {:induction false} CollectedIgnored(p: Pattern, left: seq<Item>, c: seq<string>, d: seq<string>)
    requires WellFormed(p)
    ensures SameEffect(MatchOf(p, left, c), MatchOf(p, left, d))
    decreases p, 0, 0
  {
    match p
    case Tip(_) =>
    case Required(cs) => AllIgnored(cs, left, c, d);
    case Optional(cs) => EachIgnored(cs, left, c, d);
    case OptionsShortcut(cs) => EachIgnored(cs, left, c, d);
    case OneOrMore(cs) => RoundsIgnored(cs[0], left, c, d, true, 0);
    case Either(cs) => BestIgnored(cs, left, c, d);
  }

  lemma {:induction false} AllIgnored(ps: seq<Pattern>, left: seq<Item>, c: seq<string>, d: seq<string>)
    requires AllWellFormed(ps)
    ensures MatchAll(ps, left, c).matched == MatchAll(ps, left, d).matched
    ensures MatchAll(ps, left, c).matched ==> MatchAll(ps, left, c).left == MatchAll(ps, left, d).left
    decreases ps, 1, 0
  {
    if ps != [] {
      var o, q := MatchOf(ps[0], left, c), MatchOf(ps[0], left, d);
      CollectedIgnored(ps[0], left, c, d);
      if o.matched { AllIgnored(ps[1..], o.left, o.collected, q.collected); }
    }
  }

  lemma {:induction false} EachIgnored(ps: seq<Pattern>, left: seq<Item>, c: seq<string>, d: seq<string>)
    requires AllWellFormed(ps)
    ensures SameEffect(MatchEach(ps, left, c), MatchEach(ps, left, d))
    decreases ps, 1, 0
  {
    if ps != [] {
      var o, q := MatchOf(ps[0], left, c), MatchOf(ps[0], left, d);
      CollectedIgnored(ps[0], left, c, d);
      EachIgnored(ps[1..], o.left, o.collected, q.collected);
    }
  }

  lemma {:induction false} BestIgnored(ps: seq<Pattern>, left: seq<Item>, c: seq<string>, d: seq<string>)
    requires AllWellFormed(ps)
    ensures SameEffect(MatchBest(ps, left, c), MatchBest(ps, left, d))
    decreases ps, 1, 0
  {
    if ps != [] {
      CollectedIgnored(ps[0], left, c, d);
      BestIgnored(ps[1..], left, c, d);
    }
  }

  lemma {:induction false} RoundsIgnored(p: Pattern, left: seq<Item>, c: seq<string>, d: seq<string>, first: bool,
                                         times: nat)
    requires WellFormed(p)
    ensures MatchRounds(p, left, c, first, times).times == MatchRounds(p, left, d, first, times).times
    ensures MatchRounds(p, left, c, first, times).left == MatchRounds(p, left, d, first, times).left
    decreases p, 1, |left| + (if first then 1 else 0)
  {
    var o, q := MatchOf(p, left, c), MatchOf(p, left, d);
    CollectedIgnored(p, left, c, d);
    if o.matched && (first || o.left != left) {
      RoundsIgnored(p, o.left, o.collected, q.collected, false, times + 1);
    }
  }

  /** OneOrMore takes all it can: once it has matched, its child would take
      nothing more from what is left, whatever has been collected. */
  lemma OneOrMoreExhausts(p: Pattern, left: seq<Item>, collected: seq<string>, d: seq<string>)
    requires WellFormed(p)
    ensures WellFormed(OneOrMore([p]))
    ensures var o := MatchOf(OneOrMore([p]), left, collected);
            o.matched ==> MatchOf(p, o.left, d).left == o.left
  {
    RoundsExhaust(p, left, collected, true, 0, d);
  }

  lemma {:induction false} RoundsExhaust(p: Pattern, left: seq<Item>, c: seq<string>, first: bool, times: nat,
                                         d: seq<string>)
    requires WellFormed(p)
    ensures var r := MatchRounds(p, left, c, first, times); MatchOf(p, r.left, d).left == r.left
    decreases |left| + (if first then 1 else 0)
  {
    var o := MatchOf(p, left, c);
    if o.matched && (first || o.left != left) {
      RoundsExhaust(p, o.left, o.collected, false, times + 1, d);
    } else {
      CollectedIgnored(p, left, c, d);
    }
  }

  /** Either matches when an alternative does, and then leaves as few items as
      any alternative that matches, the earliest of those. */
  lemma {:induction false} EitherTakesTheMost(ps: seq<Pattern>, left: seq<Item>, collected: seq<string>, i: nat)
    requires AllWellFormed(ps) && i < |ps|
    ensures WellFormed(ps[i])
    ensures var o, q := MatchBest(ps, left, collected), MatchOf(ps[i], left, collected);
            q.matched ==> o.matched && |o.left| <= |q.left|
    ensures var o := MatchBest(ps, left, collected);
            o.matched ==> EarliestBest(ps, left, collected, o)
    decreases |ps|
  {
    var o, r := MatchOf(ps[0], left, collected), MatchBest(ps[1..], left, collected);
    if i > 0 { EitherTakesTheMost(ps[1..], left, collected, i - 1); } else if |ps| > 1 {
      EitherTakesTheMost(ps[1..], left, collected, 0);
    }
  }

  /** `o` comes from an alternative before which no other one is as good. */
  ghost predicate EarliestBest(ps: seq<Pattern>, left: seq<Item>, collected: seq<string>, o: Outcome)
    requires AllWellFormed(ps)
    decreases |ps|
  {
    ps != [] &&
    var q := MatchOf(ps[0], left, collected);
    if q.matched && |q.left| <= |o.left| then o == q else EarliestBest(ps[1..], left, collected, o)
  }
}
