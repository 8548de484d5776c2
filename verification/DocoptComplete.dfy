/** When the matcher of docopt finds the word that is there. It never backtracks,
    so it refuses some argument vectors that its pattern derives; it accepts all
    of them if no node that takes as much as it can (Optional, OneOrMore,
    Either) competes for items with what comes after it. */
module DocoptComplete {
  import opened DocoptPattern
  import opened DocoptMatch

  // ------------------------------------------------------------- the keys

  /** The keys of the items that the leaves of a pattern look at. */
  function Keys(p: Pattern): set<Key> {
    match p
    case Tip(l) => {LeafKey(l)}
    case Required(cs) => KeysAll(cs)
    case Optional(cs) => KeysAll(cs)
    case OptionsShortcut(cs) => KeysAll(cs)
    case OneOrMore(cs) => KeysAll(cs)
    case Either(cs) => KeysAll(cs)
  }

  function KeysAll(ps: seq<Pattern>): set<Key> {
    if ps == [] then {} else Keys(ps[0]) + KeysAll(ps[1..])
  }

  /** A leaf that accepts every item of its key. */
  predicate Free(p: Pattern) { p.Tip? && !p.leaf.Command? }

  predicate AllFree(ps: seq<Pattern>) { ps == [] || (Free(ps[0]) && AllFree(ps[1..])) }

  /** Takes something wherever there is an item of its keys. */
  predicate Hungry(p: Pattern) {
    match p
    case Tip(_) => Free(p)
    case Required(cs) => |cs| == 1 && Hungry(cs[0])
    case Optional(cs) => AllHungry(cs)
    case OptionsShortcut(cs) => AllHungry(cs)
    case OneOrMore(cs) => |cs| == 1 && Hungry(cs[0])
    case Either(cs) => AllHungry(cs)
  }

  predicate AllHungry(ps: seq<Pattern>) { ps == [] || (Hungry(ps[0]) && AllHungry(ps[1..])) }

  /** Every word takes the same number of items of each key. */
  predicate Fixed(p: Pattern)
    decreases p, 0
  {
    match p
    case Tip(_) => true
    case Required(cs) => AllFixed(cs)
    case Either(cs) => cs == [] || AllTake(cs, Bag(cs[0]))
    case _ => false
  }

  predicate AllFixed(ps: seq<Pattern>)
    decreases ps, 1
  {
    ps == [] || (Fixed(ps[0]) && AllFixed(ps[1..]))
  }

  predicate AllTake(ps: seq<Pattern>, bag: multiset<Key>)
    decreases ps, 1
  {
    ps == [] || (Fixed(ps[0]) && Bag(ps[0]) == bag && AllTake(ps[1..], bag))
  }

  /** The keys of the items that each word of a fixed pattern takes. */
  function Bag(p: Pattern): multiset<Key> {
    match p
    case Tip(l) => multiset{LeafKey(l)}
    case Required(cs) => BagAll(cs)
    case Either(cs) => if cs == [] then multiset{} else Bag(cs[0])
    case _ => multiset{}
  }

  function BagAll(ps: seq<Pattern>): multiset<Key> {
    if ps == [] then multiset{} else Bag(ps[0]) + BagAll(ps[1..])
  }

  /** `after` are the keys of what may follow. Nodes that take what they can must
      not share keys with it, and their children, which take turns, not with
      each other, unless these are content with any item; alternatives may share
      keys with it if they all take equally many items of each key. */
  predicate Settled(p: Pattern, after: set<Key>)
    decreases p, 0
  {
    match p
    case Tip(_) => true
    case Required(cs) => AllSettled(cs, after)
    case Optional(cs) => EachSettled(cs, after) || (AllFree(cs) && KeysAll(cs) !! after)
    case OptionsShortcut(cs) => EachSettled(cs, after) || (AllFree(cs) && KeysAll(cs) !! after)
    case OneOrMore(cs) =>
      |cs| == 1 && Keys(cs[0]) !! after && (Settled(cs[0], after + Keys(cs[0])) || Hungry(cs[0]))
    case Either(cs) => (KeysAll(cs) !! after || Fixed(p)) && SomeSettled(cs, after)
  }

  predicate AllSettled(ps: seq<Pattern>, after: set<Key>)
    decreases ps, 1
  {
    ps == [] || (Settled(ps[0], KeysAll(ps[1..]) + after) && AllSettled(ps[1..], after))
  }

  predicate EachSettled(ps: seq<Pattern>, after: set<Key>)
    decreases ps, 1
  {
    ps == [] ||
    (Keys(ps[0]) !! KeysAll(ps[1..]) + after && Settled(ps[0], KeysAll(ps[1..]) + after) && EachSettled(ps[1..], after))
  }

  predicate SomeSettled(ps: seq<Pattern>, after: set<Key>)
    decreases ps, 1
  {
    ps == [] || (Settled(ps[0], after) && SomeSettled(ps[1..], after))
  }

  predicate WithKeys(items: seq<Item>, keys: set<Key>) {
    forall i :: 0 <= i < |items| ==> ItemKey(items[i]) in keys
  }

  lemma WithKeysConcat(v: seq<Taken>, w: seq<Taken>, keys: set<Key>, more: set<Key>)
    requires WithKeys(Items(v), keys) && WithKeys(Items(w), more)
    ensures WithKeys(Items(v + w), keys + more)
  {
    assert Items(v + w) == Items(v) + Items(w);
  }

  /** A word takes only items of the pattern's keys. */
  lemma {:induction false} DerivedKeys(p: Pattern, w: seq<Taken>)
    requires Derives(p, w)
    ensures WithKeys(Items(w), Keys(p))
    decreases p, 0, 0
  {
    match p
    case Tip(_) =>
    case Required(cs) => DerivedKeysAll(cs, w);
    case Optional(cs) => DerivedKeysEach(cs, w);
    case OptionsShortcut(cs) => DerivedKeysEach(cs, w);
    case OneOrMore(cs) =>
      var n :| DerivesTimes(cs[0], n, w);
      DerivedKeysTimes(cs[0], n, w);
    case Either(cs) =>
      var i :| 0 <= i < |cs| && Derives(cs[i], w);
      DerivedKeys(cs[i], w);
      KeysMember(cs, i);
  }

  lemma {:induction false} KeysMember(ps: seq<Pattern>, i: nat)
    requires i < |ps|
    ensures Keys(ps[i]) <= KeysAll(ps)
  {
    if i > 0 { KeysMember(ps[1..], i - 1); }
  }

  lemma {:induction false} DerivedKeysAll(ps: seq<Pattern>, w: seq<Taken>)
    requires DerivesAll(ps, w)
    ensures WithKeys(Items(w), KeysAll(ps))
    decreases ps, 1, 0
  {
    if ps != [] {
      var k :| 0 <= k <= |w| && Derives(ps[0], w[..k]) && DerivesAll(ps[1..], w[k..]);
      DerivedKeys(ps[0], w[..k]);
      DerivedKeysAll(ps[1..], w[k..]);
      WithKeysConcat(w[..k], w[k..], Keys(ps[0]), KeysAll(ps[1..]));
      assert w[..k] + w[k..] == w;
    }
  }

  lemma {:induction false} DerivedKeysEach(ps: seq<Pattern>, w: seq<Taken>)
    requires DerivesEach(ps, w)
    ensures WithKeys(Items(w), KeysAll(ps))
    decreases ps, 1, 0
  {
    if ps != [] {
      var k :| 0 <= k <= |w| && (w[..k] == [] || Derives(ps[0], w[..k])) && DerivesEach(ps[1..], w[k..]);
      if w[..k] != [] { DerivedKeys(ps[0], w[..k]); }
      DerivedKeysEach(ps[1..], w[k..]);
      WithKeysConcat(w[..k], w[k..], Keys(ps[0]), KeysAll(ps[1..]));
      assert w[..k] + w[k..] == w;
    }
  }

  lemma {:induction false} DerivedKeysTimes(p: Pattern, n: nat, w: seq<Taken>)
    requires DerivesTimes(p, n, w)
    ensures WithKeys(Items(w), Keys(p))
    decreases p, 1, n
  {
    if n == 0 {
      DerivedKeys(p, w);
    } else {
      var k :| 0 <= k <= |w| && Derives(p, w[..k]) && DerivesTimes(p, n - 1, w[k..]);
      DerivedKeys(p, w[..k]);
      DerivedKeysTimes(p, n - 1, w[k..]);
      WithKeysConcat(w[..k], w[k..], Keys(p), Keys(p));
      assert w[..k] + w[k..] == w && Keys(p) + Keys(p) == Keys(p);
    }
  }

  // ----------------------------------------------------------- the queues

  /** The same items of every key in the same order. */
  ghost predicate SameQueues(a: seq<Item>, b: seq<Item>) {
    forall k :: Only(a, k) == Only(b, k)
  }

  lemma {:induction false} OnlyCount(a: seq<Item>, x: Item)
    ensures multiset(a)[x] == multiset(Only(a, ItemKey(x)))[x]
  {
    if a != [] {
      OnlyCount(a[1..], x);
      assert a == [a[0]] + a[1..];
    }
  }

  lemma {:induction false} OnlyHasKey(a: seq<Item>, k: Key)
    ensures forall i :: 0 <= i < |Only(a, k)| ==> Only(a, k)[i] in a && ItemKey(Only(a, k)[i]) == k
  {
    if a != [] { OnlyHasKey(a[1..], k); }
  }

  lemma AllCountsZero(a: seq<Item>)
    requires forall x :: multiset(a)[x] == 0
    ensures a == []
  {
    assert multiset(a) == multiset{};
    assert |multiset(a)| == |a|;
  }

  lemma InOrderCounts(a: seq<Item>, v: seq<Item>, b: seq<Item>)
    requires InOrder(a, v, b)
    ensures multiset(a) == multiset(v) + multiset(b) && |a| == |v| + |b|
  {
    forall x ensures multiset(a)[x] == multiset(v)[x] + multiset(b)[x] {
      OnlyCount(a, x);
      OnlyCount(v, x);
      OnlyCount(b, x);
      assert Only(a, ItemKey(x)) == Only(v, ItemKey(x)) + Only(b, ItemKey(x));
    }
    assert multiset(a) == multiset(v + b);
    assert |multiset(a)| == |a| && |multiset(v + b)| == |v + b|;
  }

  lemma SameQueuesCounts(a: seq<Item>, b: seq<Item>)
    requires SameQueues(a, b)
    ensures multiset(a) == multiset(b) && |a| == |b|
  {
    forall k ensures Only(a, k) == Only([], k) + Only(b, k) { assert [] + Only(b, k) == Only(b, k); }
    InOrderCounts(a, [], b);
  }

  lemma Cancel(a: seq<Item>, b: seq<Item>, c: seq<Item>)
    requires a + b == a + c
    ensures b == c
  {
    assert b == (a + b)[|a|..] && c == (a + c)[|a|..];
  }

  lemma SameRest(left: seq<Item>, v: seq<Item>, b: seq<Item>, c: seq<Item>)
    requires InOrder(left, v, b) && InOrder(left, v, c)
    ensures SameQueues(b, c)
  {
    forall k ensures Only(b, k) == Only(c, k) {
      assert Only(left, k) == Only(v, k) + Only(b, k);
      assert Only(left, k) == Only(v, k) + Only(c, k);
      Cancel(Only(v, k), Only(b, k), Only(c, k));
    }
  }

  /** What is ahead of the first part of a word is the rest of the word first. */
  lemma SplitAhead(left: seq<Item>, v: seq<Taken>, w: seq<Taken>, rest: seq<Item>)
    requires InOrder(left, Items(v + w), rest)
    ensures InOrder(left, Items(v), Items(w) + rest)
  {
    assert Items(v + w) == Items(v) + Items(w);
    forall k ensures Only(left, k) == Only(Items(v), k) + Only(Items(w) + rest, k) {
      OnlyConcat(Items(v), Items(w), k);
      OnlyConcat(Items(w), rest, k);
      var a, b, c := Only(Items(v), k), Only(Items(w), k), Only(rest, k);
      assert a + b + c == a + (b + c);
    }
  }

  lemma JoinAhead(left: seq<Item>, w: seq<Taken>, rest: seq<Item>)
    requires SameQueues(left, Items(w) + rest)
    ensures InOrder(left, Items(w), rest)
  {
    forall k ensures Only(left, k) == Only(Items(w), k) + Only(rest, k) {
      OnlyConcat(Items(w), rest, k);
    }
  }

  lemma NoneOfKey(items: seq<Item>, keys: set<Key>, k: Key)
    requires WithKeys(items, keys) && k !in keys
    ensures Only(items, k) == []
  {
    OnlyNone(items, k);
  }

  // -------------------------------------------------------- completeness

  lemma {:induction false} FirstIsHead(left: seq<Item>, k: Key)
    requires Only(left, k) != []
    ensures var n := FirstWithKey(left, k); n < |left| && left[n] == Only(left, k)[0]
  {
    if ItemKey(left[0]) != k { FirstIsHead(left[1..], k); }
  }

  lemma TipComplete(l: Leaf, x: Item, left: seq<Item>, rest: seq<Item>, c: seq<string>)
    requires Accepts(l, x) && InOrder(left, [x], rest)
    ensures var o := LeafOutcome(l, left, c); o.matched && SameQueues(o.left, rest)
  {
    var k := LeafKey(l);
    assert Only([x], k) == [x] by { assert [x][1..] == []; }
    FirstIsHead(left, k);
    var n := FirstWithKey(left, k);
    InOrderFirst(left[..n], left[n], left[n + 1..]);
    assert left == left[..n] + [left[n]] + left[n + 1..];
    SameRest(left, [x], left[..n] + left[n + 1..], rest);
  }

  lemma NothingTaken(keys: set<Key>, left: seq<Item>, v: seq<Item>, rest: seq<Item>)
    requires InOrder(left, v, rest) && WithKeys(v, keys) && forall k :: k in keys ==> Only(left, k) == []
    ensures v == []
  {
    forall x ensures multiset(v)[x] == 0 {
      var k := ItemKey(x);
      OnlyCount(v, x);
      if k in keys { assert Only(left, k) == Only(v, k) + Only(rest, k); } else { NoneOfKey(v, keys, k); }
    }
    AllCountsZero(v);
  }

  /** A pattern takes nothing where there is nothing of its keys. */
  lemma Untouched(p: Pattern, left: seq<Item>, c: seq<string>)
    requires WellFormed(p) && forall k :: k in Keys(p) ==> Only(left, k) == []
    ensures MatchOf(p, left, c).left == left
  {
    var o := MatchOf(p, left, c);
    if o.matched {
      var v := MatchSound(p, left, c);
      DerivedKeys(p, v);
      NothingTaken(Keys(p), left, Items(v), o.left);
      InOrderCounts(left, Items(v), o.left);
    }
  }

  /** If the items ahead are a word of the pattern and then others that only what
      follows looks at, the matcher takes that word, whatever else it tries. */
  lemma {:induction false} Complete(p: Pattern, after: set<Key>, w: seq<Taken>, left: seq<Item>, rest: seq<Item>,
                                    c: seq<string>)
    requires WellFormed(p) && Settled(p, after) && Derives(p, w)
    requires InOrder(left, Items(w), rest) && WithKeys(rest, after)
    ensures var o := MatchOf(p, left, c); o.matched && SameQueues(o.left, rest)
    decreases p, 0, 0
  {
    match p
    case Tip(l) =>
      assert Items(w) == [w[0].item];
      TipComplete(l, w[0].item, left, rest, c);
    case Required(cs) => AllComplete(cs, after, w, left, rest, c);
    case Optional(cs) => OptionalComplete(cs, after, w, left, rest, c);
    case OptionsShortcut(cs) => OptionalComplete(cs, after, w, left, rest, c);
    case OneOrMore(cs) =>
      var n :| DerivesTimes(cs[0], n, w);
      if Hungry(cs[0]) {
        HungryComplete(cs[0], after, n, w, left, rest, c);
      } else {
        TimesComplete(cs[0], after, n, w, left, rest, c, true, 0);
      }
    case Either(cs) =>
      var i :| 0 <= i < |cs| && Derives(cs[i], w);
      WellFormedAt(cs, i);
      SettledAt(cs, after, i);
      Complete(cs[i], after, w, left, rest, c);
      if Fixed(p) {
        FixedComplete(cs, i, w, left, rest, c);
      } else {
        BestComplete(cs, after, i, w, left, rest, c);
      }
  }

  lemma {:induction false} SettledAt(ps: seq<Pattern>, after: set<Key>, i: nat)
    requires SomeSettled(ps, after) && i < |ps|
    ensures Settled(ps[i], after)
  {
    if i > 0 { SettledAt(ps[1..], after, i - 1); }
  }

  lemma {:induction false} AllComplete(ps: seq<Pattern>, after: set<Key>, w: seq<Taken>, left: seq<Item>,
                                       rest: seq<Item>, c: seq<string>)
    requires AllWellFormed(ps) && AllSettled(ps, after) && DerivesAll(ps, w)
    requires InOrder(left, Items(w), rest) && WithKeys(rest, after)
    ensures var o := MatchAll(ps, left, c); o.matched && SameQueues(o.left, rest)
    decreases ps, 1, 0
  {
    if ps == [] {
      JoinNothing(left, w, rest);
    } else {
      var k :| 0 <= k <= |w| && Derives(ps[0], w[..k]) && DerivesAll(ps[1..], w[k..]);
      var v, u := w[..k], w[k..];
      assert v + u == w;
      SplitAhead(left, v, u, rest);
      DerivedKeysAll(ps[1..], u);
      Complete(ps[0], KeysAll(ps[1..]) + after, v, left, Items(u) + rest, c);
      var o := MatchOf(ps[0], left, c);
      JoinAhead(o.left, u, rest);
      AllComplete(ps[1..], after, u, o.left, rest, o.collected);
    }
  }

  lemma JoinNothing(left: seq<Item>, w: seq<Taken>, rest: seq<Item>)
    requires w == [] && InOrder(left, Items(w), rest)
    ensures SameQueues(left, rest)
  {
    forall k ensures Only(left, k) == Only(rest, k) {
      assert Only(Items(w), k) == [];
      assert [] + Only(rest, k) == Only(rest, k);
    }
  }

  lemma AheadKeys(u: seq<Taken>, rest: seq<Item>, keys: set<Key>, after: set<Key>)
    requires WithKeys(Items(u), keys) && WithKeys(rest, after)
    ensures WithKeys(Items(u) + rest, keys + after)
  {}

  lemma EachSplit(ps: seq<Pattern>, w: seq<Taken>) returns (v: seq<Taken>, u: seq<Taken>)
    requires ps != [] && DerivesEach(ps, w)
    ensures w == v + u && (v == [] || Derives(ps[0], v))
    ensures DerivesEach(ps[1..], u) && WithKeys(Items(u), KeysAll(ps[1..]))
  {
    var k :| 0 <= k <= |w| && (w[..k] == [] || Derives(ps[0], w[..k])) && DerivesEach(ps[1..], w[k..]);
    v, u := w[..k], w[k..];
    DerivedKeysEach(ps[1..], u);
  }

  /** An optional child whose keys nothing ahead has is passed over. */
  lemma Skipped(p: Pattern, after: set<Key>, left: seq<Item>, ahead: seq<Item>, c: seq<string>)
    requires WellFormed(p) && Keys(p) !! after && WithKeys(ahead, after) && SameQueues(left, ahead)
    ensures SameQueues(MatchOf(p, left, c).left, ahead)
  {
    forall k | k in Keys(p) ensures Only(left, k) == [] { NoneOfKey(ahead, after, k); }
    Untouched(p, left, c);
  }

  lemma {:induction false} EachComplete(ps: seq<Pattern>, after: set<Key>, w: seq<Taken>, left: seq<Item>,
                                        rest: seq<Item>, c: seq<string>)
    requires AllWellFormed(ps) && EachSettled(ps, after) && DerivesEach(ps, w)
    requires InOrder(left, Items(w), rest) && WithKeys(rest, after)
    ensures SameQueues(MatchEach(ps, left, c).left, rest)
    decreases ps, 1, 0
  {
    hide SameQueues, InOrder, MatchOf, Derives, Settled, WithKeys;
    if ps == [] {
      JoinNothing(left, w, rest);
    } else {
      var v, u := EachSplit(ps, w);
      SplitAhead(left, v, u, rest);
      AheadKeys(u, rest, KeysAll(ps[1..]), after);
      var o := MatchOf(ps[0], left, c);
      if v == [] {
        JoinNothing(left, v, Items(u) + rest);
        Skipped(ps[0], KeysAll(ps[1..]) + after, left, Items(u) + rest, c);
      } else {
        Complete(ps[0], KeysAll(ps[1..]) + after, v, left, Items(u) + rest, c);
      }
      JoinAhead(o.left, u, rest);
      EachComplete(ps[1..], after, u, o.left, rest, o.collected);
    }
  }

  /** Another round where nothing of the child's keys is left changes nothing. */
  lemma RoundsStay(p: Pattern, left: seq<Item>, c: seq<string>, times: nat)
    requires WellFormed(p) && forall k :: k in Keys(p) ==> Only(left, k) == []
    ensures MatchRounds(p, left, c, false, times).left == left
  {
    Untouched(p, left, c);
  }

  lemma {:induction false} TimesComplete(p: Pattern, after: set<Key>, n: nat, w: seq<Taken>, left: seq<Item>,
                                         rest: seq<Item>, c: seq<string>, first: bool, times: nat)
    requires WellFormed(p) && Keys(p) !! after && Settled(p, after + Keys(p)) && DerivesTimes(p, n, w)
    requires InOrder(left, Items(w), rest) && WithKeys(rest, after)
    ensures var r := MatchRounds(p, left, c, first, times); r.times > times && SameQueues(r.left, rest)
    decreases p, 1, n
  {
    hide SameQueues, InOrder, Derives, MatchOf, Settled;
    var o := MatchOf(p, left, c);
    if n == 0 {
      Complete(p, after + Keys(p), w, left, rest, c);
      RestHasNone(p, after, o.left, rest);
      RoundsStay(p, o.left, o.collected, times + 1);
    } else {
      var v, u := TimesSplit(p, n, w);
      if v == [] {
        assert u == w;
        TimesComplete(p, after, n - 1, w, left, rest, c, first, times);
      } else {
        SplitAhead(left, v, u, rest);
        AheadKeys(u, rest, Keys(p), after);
        assert Keys(p) + after == after + Keys(p);
        Complete(p, after + Keys(p), v, left, Items(u) + rest, c);
        SameQueuesCounts(o.left, Items(u) + rest);
        InOrderCounts(left, Items(w), rest);
        JoinAhead(o.left, u, rest);
        TimesComplete(p, after, n - 1, u, o.left, rest, o.collected, false, times + 1);
      }
    }
  }

  lemma RestHasNone(p: Pattern, after: set<Key>, left: seq<Item>, rest: seq<Item>)
    requires Keys(p) !! after && WithKeys(rest, after) && SameQueues(left, rest)
    ensures forall k :: k in Keys(p) ==> Only(left, k) == []
  {
    forall k | k in Keys(p) ensures Only(left, k) == [] { NoneOfKey(rest, after, k); }
  }

  lemma TimesSplit(p: Pattern, n: nat, w: seq<Taken>) returns (v: seq<Taken>, u: seq<Taken>)
    requires n > 0 && DerivesTimes(p, n, w)
    ensures w == v + u && Derives(p, v) && DerivesTimes(p, n - 1, u) && WithKeys(Items(u), Keys(p))
  {
    var k :| 0 <= k <= |w| && Derives(p, w[..k]) && DerivesTimes(p, n - 1, w[k..]);
    v, u := w[..k], w[k..];
    DerivedKeysTimes(p, n - 1, u);
  }

  /** Either leaves no more than the alternative that takes the word, and that
      one takes all there is of its keys. */
  lemma BestComplete(ps: seq<Pattern>, after: set<Key>, i: nat, w: seq<Taken>, left: seq<Item>, rest: seq<Item>,
                     c: seq<string>)
    requires AllWellFormed(ps) && KeysAll(ps) !! after && i < |ps| && WellFormed(ps[i]) && Derives(ps[i], w)
    requires InOrder(left, Items(w), rest) && WithKeys(rest, after)
    requires MatchOf(ps[i], left, c).matched && SameQueues(MatchOf(ps[i], left, c).left, rest)
    ensures var o := MatchBest(ps, left, c); o.matched && SameQueues(o.left, rest)
  {
    EitherTakesTheMost(ps, left, c, i);
    SameQueuesCounts(MatchOf(ps[i], left, c).left, rest);
    var o := MatchBest(ps, left, c);
    var j, v := BestSound(ps, left, c);
    DerivedKeys(ps[j], v);
    DerivedKeys(ps[i], w);
    KeysMember(ps, i);
    KeysMember(ps, j);
    LeavesTheRest(KeysAll(ps), after, Items(v), Items(w), left, o.left, rest);
  }

  lemma LeavesTheRest(keys: set<Key>, after: set<Key>, v: seq<Item>, w: seq<Item>, left: seq<Item>, some: seq<Item>,
                      rest: seq<Item>)
    requires keys !! after && WithKeys(v, keys) && WithKeys(w, keys) && WithKeys(rest, after)
    requires InOrder(left, v, some) && InOrder(left, w, rest) && |some| <= |rest|
    ensures SameQueues(some, rest)
  {
    forall k | k !in keys ensures Only(some, k) == Only(rest, k) {
      NoneOfKey(v, keys, k);
      NoneOfKey(w, keys, k);
      assert Only(left, k) == [] + Only(some, k) && Only(left, k) == [] + Only(rest, k);
      Cancel([], Only(some, k), Only(rest, k));
    }
    forall x ensures multiset(rest)[x] <= multiset(some)[x] {
      OnlyCount(rest, x);
      OnlyCount(some, x);
      if ItemKey(x) in keys { NoneOfKey(rest, after, ItemKey(x)); }
    }
    SubsetOfSameSize(rest, some);
    forall k | k in keys ensures Only(some, k) == Only(rest, k) {
      NoneOfKey(rest, after, k);
      OnlyHasKey(some, k);
      forall x ensures multiset(Only(some, k))[x] == 0 {
        if ItemKey(x) == k {
          OnlyCount(some, x);
          OnlyCount(rest, x);
        }
      }
      AllCountsZero(Only(some, k));
    }
  }

  lemma SubsetOfSameSize(a: seq<Item>, b: seq<Item>)
    requires |b| <= |a| && forall x :: multiset(a)[x] <= multiset(b)[x]
    ensures multiset(a) == multiset(b)
  {
    var extra := multiset(b) - multiset(a);
    assert multiset(b) == multiset(a) + extra;
    assert |multiset(b)| == |multiset(a)| + |extra|;
    assert |multiset(a)| == |a| && |multiset(b)| == |b|;
  }

  lemma {:induction false} FixedCount(p: Pattern, w: seq<Taken>, k: Key)
    requires Fixed(p) && Derives(p, w)
    ensures |Only(Items(w), k)| == Bag(p)[k]
    decreases p, 0
  {
    match p
    case Tip(_) => assert Items(w) == [w[0].item] && Items(w)[1..] == [];
    case Required(cs) => FixedCounts(cs, w, k);
    case Either(cs) =>
      var i :| 0 <= i < |cs| && Derives(cs[i], w);
      TakesBag(cs, Bag(cs[0]), i);
      FixedCount(cs[i], w, k);
  }

  lemma {:induction false} TakesBag(ps: seq<Pattern>, bag: multiset<Key>, i: nat)
    requires AllTake(ps, bag) && i < |ps|
    ensures Fixed(ps[i]) && Bag(ps[i]) == bag
  {
    if i > 0 { TakesBag(ps[1..], bag, i - 1); }
  }

  lemma {:induction false} FixedCounts(ps: seq<Pattern>, w: seq<Taken>, k: Key)
    requires AllFixed(ps) && DerivesAll(ps, w)
    ensures |Only(Items(w), k)| == BagAll(ps)[k]
    decreases ps, 1
  {
    if ps != [] {
      var n :| 0 <= n <= |w| && Derives(ps[0], w[..n]) && DerivesAll(ps[1..], w[n..]);
      FixedCount(ps[0], w[..n], k);
      FixedCounts(ps[1..], w[n..], k);
      assert w[..n] + w[n..] == w && Items(w) == Items(w[..n]) + Items(w[n..]);
      OnlyConcat(Items(w[..n]), Items(w[n..]), k);
    }
  }

  /** Whichever alternative wins, it takes as many items of each key. */
  lemma FixedComplete(ps: seq<Pattern>, i: nat, w: seq<Taken>, left: seq<Item>, rest: seq<Item>, c: seq<string>)
    requires AllWellFormed(ps) && i < |ps| && WellFormed(ps[i]) && Derives(ps[i], w) && Fixed(Either(ps))
    requires InOrder(left, Items(w), rest) && MatchOf(ps[i], left, c).matched
    ensures var o := MatchBest(ps, left, c); o.matched && SameQueues(o.left, rest)
  {
    EitherTakesTheMost(ps, left, c, i);
    var o := MatchBest(ps, left, c);
    var j, v := BestSound(ps, left, c);
    TakesBag(ps, Bag(ps[0]), i);
    TakesBag(ps, Bag(ps[0]), j);
    forall k ensures Only(o.left, k) == Only(rest, k) {
      FixedCount(ps[i], w, k);
      FixedCount(ps[j], v, k);
      SameCut(Only(Items(v), k), Only(o.left, k), Only(Items(w), k), Only(rest, k));
    }
  }

  lemma SameCut(a: seq<Item>, b: seq<Item>, c: seq<Item>, d: seq<Item>)
    requires a + b == c + d && |a| == |c|
    ensures b == d
  {
    assert b == (a + b)[|a|..] && d == (c + d)[|c|..];
  }

  lemma OptionalComplete(ps: seq<Pattern>, after: set<Key>, w: seq<Taken>, left: seq<Item>, rest: seq<Item>,
                         c: seq<string>)
    requires AllWellFormed(ps) && DerivesEach(ps, w)
    requires EachSettled(ps, after) || (AllFree(ps) && KeysAll(ps) !! after)
    requires InOrder(left, Items(w), rest) && WithKeys(rest, after)
    ensures SameQueues(MatchEach(ps, left, c).left, rest)
    decreases ps, 2, 0
  {
    if EachSettled(ps, after) {
      EachComplete(ps, after, w, left, rest, c);
    } else {
      FreeComplete(ps, after, w, left, rest, c);
    }
  }

  // ------------------------------------------- children content with any item

  /** All items of the keys were taken, and no others. */
  lemma TookAll(keys: set<Key>, after: set<Key>, v: seq<Item>, w: seq<Item>, left: seq<Item>, some: seq<Item>,
                rest: seq<Item>)
    requires keys !! after && WithKeys(v, keys) && WithKeys(w, keys) && WithKeys(rest, after)
    requires InOrder(left, v, some) && InOrder(left, w, rest) && forall k :: k in keys ==> Only(some, k) == []
    ensures SameQueues(some, rest)
  {
    forall k ensures Only(some, k) == Only(rest, k) {
      if k in keys {
        NoneOfKey(rest, after, k);
      } else {
        NoneOfKey(v, keys, k);
        NoneOfKey(w, keys, k);
        assert Only(left, k) == [] + Only(some, k) && Only(left, k) == [] + Only(rest, k);
        Cancel([], Only(some, k), Only(rest, k));
      }
    }
  }

  /** The leaves that look at a key. */
  function Slots(ps: seq<Pattern>, k: Key): nat {
    if ps == [] then 0 else (if ps[0].Tip? && LeafKey(ps[0].leaf) == k then 1 else 0) + Slots(ps[1..], k)
  }

  lemma {:induction false} SlotsSuffice(ps: seq<Pattern>, w: seq<Taken>, k: Key)
    requires AllFree(ps) && DerivesEach(ps, w)
    ensures |Only(Items(w), k)| <= Slots(ps, k)
    decreases |ps|
  {
    hide Derives, DerivesEach, WithKeys, KeysAll;
    if ps == [] {
      NoSlots(w, k);
    } else {
      var v, u := EachSplit(ps, w);
      SlotsSuffice(ps[1..], u, k);
      OneSlot(ps[0], v, k);
      assert Items(v + u) == Items(v) + Items(u);
      OnlyConcat(Items(v), Items(u), k);
    }
  }

  lemma NoSlots(w: seq<Taken>, k: Key)
    requires DerivesEach([], w)
    ensures Only(Items(w), k) == []
  {}

  lemma OneSlot(p: Pattern, v: seq<Taken>, k: Key)
    requires Free(p) && (v == [] || Derives(p, v))
    ensures |Only(Items(v), k)| <= if LeafKey(p.leaf) == k then 1 else 0
  {
    if v != [] { assert Items(v) == [v[0].item] && Items(v)[1..] == []; }
  }

  /** A free leaf takes an item of its key if there is one. */
  lemma FreeTakes(l: Leaf, left: seq<Item>, c: seq<string>, k: Key)
    requires !l.Command?
    ensures var o := LeafOutcome(l, left, c);
            |Only(o.left, k)| == |Only(left, k)| - if LeafKey(l) == k && Only(left, k) != [] then 1 else 0
  {
    var n := FirstWithKey(left, LeafKey(l));
    if n < |left| {
      OnlyFirst(left[..n], left[n], left[n + 1..], k);
      assert left == left[..n] + [left[n]] + left[n + 1..];
      assert [left[n]][1..] == [];
      if LeafKey(l) == k { OnlyCount(left, left[n]); }
    } else {
      OnlyNone(left, LeafKey(l));
    }
  }

  lemma {:induction false} FreeEach(ps: seq<Pattern>, left: seq<Item>, c: seq<string>, k: Key)
    requires AllWellFormed(ps) && AllFree(ps)
    ensures var o := MatchEach(ps, left, c);
            |Only(o.left, k)| == if Slots(ps, k) <= |Only(left, k)| then |Only(left, k)| - Slots(ps, k) else 0
    decreases |ps|
  {
    if ps != [] {
      var o := MatchOf(ps[0], left, c);
      FreeTakes(ps[0].leaf, left, c, k);
      FreeEach(ps[1..], o.left, o.collected, k);
    }
  }

  lemma FreeComplete(ps: seq<Pattern>, after: set<Key>, w: seq<Taken>, left: seq<Item>, rest: seq<Item>, c: seq<string>)
    requires AllWellFormed(ps) && AllFree(ps) && KeysAll(ps) !! after && DerivesEach(ps, w)
    requires InOrder(left, Items(w), rest) && WithKeys(rest, after)
    ensures SameQueues(MatchEach(ps, left, c).left, rest)
  {
    var o := MatchEach(ps, left, c);
    var v := EachSound(ps, left, c);
    DerivedKeysEach(ps, v);
    DerivedKeysEach(ps, w);
    forall k | k in KeysAll(ps) ensures Only(o.left, k) == [] {
      FreeEach(ps, left, c, k);
      SlotsSuffice(ps, w, k);
      NoneOfKey(rest, after, k);
      assert Only(left, k) == Only(Items(w), k) + Only(rest, k);
    }
    TookAll(KeysAll(ps), after, Items(v), Items(w), left, o.left, rest);
  }

  lemma {:induction false} HungryTakes(p: Pattern, left: seq<Item>, c: seq<string>, k: Key)
    requires WellFormed(p) && Hungry(p) && k in Keys(p) && Only(left, k) != []
    ensures var o := MatchOf(p, left, c); o.matched && |o.left| < |left|
    decreases p, 0
  {
    match p
    case Tip(l) => FirstIsHead(left, k);
    case Required(cs) =>
      assert KeysAll(cs) == Keys(cs[0]) + KeysAll(cs[1..]) && cs[1..] == [];
      HungryTakes(cs[0], left, c, k);
      var o := MatchOf(cs[0], left, c);
      assert MatchAll(cs[1..], o.left, o.collected) == Outcome(true, o.left, o.collected);
    case Optional(cs) => HungryEach(cs, left, c, k);
    case OptionsShortcut(cs) => HungryEach(cs, left, c, k);
    case OneOrMore(cs) =>
      assert KeysAll(cs) == Keys(cs[0]) + KeysAll(cs[1..]) && cs[1..] == [];
      HungryTakes(cs[0], left, c, k);
    case Either(cs) => HungryBest(cs, left, c, k);
  }

  lemma {:induction false} HungryEach(ps: seq<Pattern>, left: seq<Item>, c: seq<string>, k: Key)
    requires AllWellFormed(ps) && AllHungry(ps) && k in KeysAll(ps) && Only(left, k) != []
    ensures |MatchEach(ps, left, c).left| < |left|
    decreases ps, 1
  {
    var o := MatchOf(ps[0], left, c);
    if k in Keys(ps[0]) {
      HungryTakes(ps[0], left, c, k);
    } else if |o.left| == |left| {
      HungryEach(ps[1..], left, o.collected, k);
    }
  }

  lemma {:induction false} HungryBest(ps: seq<Pattern>, left: seq<Item>, c: seq<string>, k: Key)
    requires AllWellFormed(ps) && AllHungry(ps) && k in KeysAll(ps) && Only(left, k) != []
    ensures var o := MatchBest(ps, left, c); o.matched && |o.left| < |left|
    decreases ps, 1
  {
    if k in Keys(ps[0]) {
      HungryTakes(ps[0], left, c, k);
    } else {
      HungryBest(ps[1..], left, c, k);
    }
  }

  /** A pattern that derives the empty word matches where it finds nothing. */
  lemma {:induction false} EmptyMatches(p: Pattern, left: seq<Item>, c: seq<string>)
    requires WellFormed(p) && Derives(p, []) && forall k :: k in Keys(p) ==> Only(left, k) == []
    ensures MatchOf(p, left, c).matched
    decreases p, 0, 0
  {
    match p
    case Tip(_) =>
    case Required(cs) => EmptyAll(cs, left, c);
    case Optional(_) =>
    case OptionsShortcut(_) =>
    case OneOrMore(cs) =>
      var n :| DerivesTimes(cs[0], n, []);
      EmptyTimes(cs[0], n);
      assert Keys(cs[0]) <= KeysAll(cs);
      EmptyMatches(cs[0], left, c);
    case Either(cs) =>
      var i :| 0 <= i < |cs| && Derives(cs[i], []);
      WellFormedAt(cs, i);
      KeysMember(cs, i);
      EmptyMatches(cs[i], left, c);
      EitherTakesTheMost(cs, left, c, i);
  }

  lemma EmptyTimes(p: Pattern, n: nat)
    requires DerivesTimes(p, n, [])
    ensures Derives(p, [])
  {
    if n > 0 {
      var k :| 0 <= k <= 0 && Derives(p, [][..k]) && DerivesTimes(p, n - 1, [][k..]);
    }
  }

  lemma {:induction false} EmptyAll(ps: seq<Pattern>, left: seq<Item>, c: seq<string>)
    requires AllWellFormed(ps) && DerivesAll(ps, []) && forall k :: k in KeysAll(ps) ==> Only(left, k) == []
    ensures MatchAll(ps, left, c).matched
    decreases ps, 1, 0
  {
    if ps != [] {
      EmptyMatches(ps[0], left, c);
      Untouched(ps[0], left, c);
      EmptyAll(ps[1..], left, MatchOf(ps[0], left, c).collected);
    }
  }

  lemma {:induction false} TimesSome(p: Pattern, left: seq<Item>, c: seq<string>)
    requires WellFormed(p) && MatchOf(p, left, c).matched
    ensures MatchRounds(p, left, c, true, 0).times >= 1
  {}

  lemma HungryComplete(p: Pattern, after: set<Key>, n: nat, w: seq<Taken>, left: seq<Item>, rest: seq<Item>,
                       c: seq<string>)
    requires WellFormed(p) && Hungry(p) && Keys(p) !! after && DerivesTimes(p, n, w)
    requires InOrder(left, Items(w), rest) && WithKeys(rest, after)
    ensures var r := MatchRounds(p, left, c, true, 0); r.times >= 1 && SameQueues(r.left, rest)
  {
    var r := MatchRounds(p, left, c, true, 0);
    DerivedKeysTimes(p, n, w);
    if w == [] {
      JoinNothing(left, w, rest);
      RestHasNone(p, after, left, rest);
      EmptyTimes(p, n);
      EmptyMatches(p, left, c);
    } else {
      SomethingAhead(left, w, rest);
      HungryTakes(p, left, c, ItemKey(w[0].item));
    }
    TimesSome(p, left, c);
    var m, v := RoundsSound(p, left, c, true, 0);
    DerivedKeysTimes(p, m, v);
    forall k | k in Keys(p) ensures Only(r.left, k) == [] {
      RoundsExhaust(p, left, c, true, 0, []);
      if Only(r.left, k) != [] { HungryTakes(p, r.left, [], k); }
    }
    TookAll(Keys(p), after, Items(v), Items(w), left, r.left, rest);
  }

  lemma SomethingAhead(left: seq<Item>, w: seq<Taken>, rest: seq<Item>)
    requires w != [] && InOrder(left, Items(w), rest)
    ensures Only(left, ItemKey(w[0].item)) != []
  {
    assert Items(w)[0] == w[0].item;
    assert Only(Items(w), ItemKey(w[0].item)) != [];
  }

  // ---------------------------------------------------------- main results

  /** The argument vector is a word of the pattern, up to how items of different
      keys are interleaved. */
  ghost predicate Derivable(p: Pattern, argv: seq<Item>) {
    exists w :: Derives(p, w) && SameQueues(argv, Items(w))
  }

  /** The acceptance test of `docopt`. */
  predicate Accepted(p: Pattern, argv: seq<Item>)
    requires WellFormed(p)
  {
    MatchOf(p, argv, []).matched && MatchOf(p, argv, []).left == []
  }

  /** For settled patterns, accepted is the same as derivable. */
  lemma AcceptedExactly(p: Pattern, argv: seq<Item>)
    requires WellFormed(p) && Settled(p, {})
    ensures Accepted(p, argv) <==> Derivable(p, argv)
  {
    if Accepted(p, argv) {
      var w := AcceptedIsDerived(p, argv);
      assert SameQueues(argv, Items(w));
    }
    if Derivable(p, argv) {
      var w :| Derives(p, w) && SameQueues(argv, Items(w));
      assert Items(w) + [] == Items(w);
      JoinAhead(argv, w, []);
      Complete(p, {}, w, argv, [], []);
      SameQueuesCounts(MatchOf(p, argv, []).left, []);
    }
  }

  /** Patterns made of leaves and Required alone are settled. */
  predicate Sequential(p: Pattern) {
    match p
    case Tip(_) => true
    case Required(cs) => AllSequential(cs)
    case _ => false
  }

  predicate AllSequential(ps: seq<Pattern>) { ps == [] || (Sequential(ps[0]) && AllSequential(ps[1..])) }

  lemma {:induction false} SequentialIsSettled(p: Pattern, after: set<Key>)
    requires Sequential(p)
    ensures Settled(p, after)
    decreases p, 0
  {
    if p.Required? { AllSequentialSettled(p.children, after); }
  }

  lemma {:induction false} AllSequentialSettled(ps: seq<Pattern>, after: set<Key>)
    requires AllSequential(ps)
    ensures AllSettled(ps, after)
    decreases ps, 1
  {
    if ps != [] {
      SequentialIsSettled(ps[0], KeysAll(ps[1..]) + after);
      AllSequentialSettled(ps[1..], after);
    }
  }

  /** So are alternatives of them that take the same keys, whatever follows, like
      the commands of `(add | remove) <name>`. */
  lemma AlternativesSettled(alts: seq<Pattern>, after: set<Key>)
    requires alts != [] && AllSequential(alts) && AllTake(alts, Bag(alts[0]))
    ensures Settled(Either(alts), after)
  {
    SomeSequentialSettled(alts, after);
  }

  lemma {:induction false} SomeSequentialSettled(ps: seq<Pattern>, after: set<Key>)
    requires AllSequential(ps)
    ensures SomeSettled(ps, after)
  {
    if ps != [] {
      SequentialIsSettled(ps[0], after);
      SomeSequentialSettled(ps[1..], after);
    }
  }

  // ------------------------------------------------- where it is refused

  /** The smallest pattern that need not be settled, `[a] b`. */
  function OptionalThen(a: Leaf, b: Leaf): (p: Pattern)
    ensures WellFormed(p)
  {
    OneWellFormed(Tip(a));
    OneWellFormed(Tip(b));
    var ps := [Optional([Tip(a)]), Tip(b)];
    assert WellFormed(ps[0]) && ps[1..] == [Tip(b)];
    Required([Optional([Tip(a)]), Tip(b)])
  }

  lemma OneWellFormed(p: Pattern)
    requires WellFormed(p)
    ensures AllWellFormed([p])
  {
    assert [p][1..] == [];
  }

  /** Some item is accepted by both leaves. */
  predicate Overlap(a: Leaf, b: Leaf) {
    LeafKey(a) == LeafKey(b) && (a.Command? && b.Command? ==> a.cmdName == b.cmdName)
  }

  lemma OverlapMeaning(a: Leaf, b: Leaf)
    ensures Overlap(a, b) <==> exists x :: Accepts(a, x) && Accepts(b, x)
  {
    if Overlap(a, b) {
      var x := if a.Opt? then Switch(a.Name())
               else Positional(if a.Command? then a.cmdName else if b.Command? then b.cmdName else "");
      assert Accepts(a, x) && Accepts(b, x);
    }
  }

  /** The matcher on `[a] b`: the first leaf, if it can, and then the second. */
  lemma OptionalThenMatch(a: Leaf, b: Leaf, argv: seq<Item>)
    ensures var o := LeafOutcome(a, argv, []);
            var q := LeafOutcome(b, o.left, o.collected);
            Accepted(OptionalThen(a, b), argv) <==> q.matched && q.left == []
  {
    OneWellFormed(Tip(a));
    OneWellFormed(Tip(b));
    var ps := [Optional([Tip(a)]), Tip(b)];
    assert ps[1..] == [Tip(b)] && [Tip(b)][1..] == [] && [Tip(a)][1..] == [];
    assert WellFormed(ps[0]) && AllWellFormed(ps);
    var o := LeafOutcome(a, argv, []);
    var q := LeafOutcome(b, o.left, o.collected);
    assert MatchEach([Tip(a)], argv, []) == MatchEach([], o.left, o.collected);
    assert MatchOf(Optional([Tip(a)]), argv, []) == Outcome(true, o.left, o.collected);
    assert MatchAll([Tip(b)], o.left, o.collected) == if q.matched then MatchAll([], q.left, q.collected) else q;
    assert MatchAll(ps, argv, []) == MatchAll([Tip(b)], o.left, o.collected);
  }

  /** The words of `[a] b`. */
  predicate OneOrBoth(a: Leaf, b: Leaf, w: seq<Taken>) {
    || (|w| == 1 && w[0].leaf == b && Accepts(b, w[0].item))
    || (|w| == 2 && w[0].leaf == a && Accepts(a, w[0].item) && w[1].leaf == b && Accepts(b, w[1].item))
  }

  lemma OptionalThenDerived(a: Leaf, b: Leaf, w: seq<Taken>)
    requires Derives(OptionalThen(a, b), w)
    ensures OneOrBoth(a, b, w)
  {
    var ps := [Optional([Tip(a)]), Tip(b)];
    assert ps[1..] == [Tip(b)];
    var k :| 0 <= k <= |w| && Derives(ps[0], w[..k]) && DerivesAll(ps[1..], w[k..]);
    OneOptional(Tip(a), w[..k]);
    OneRequired(Tip(b), w[k..]);
  }

  lemma OptionalThenDerives(a: Leaf, b: Leaf, w: seq<Taken>)
    requires OneOrBoth(a, b, w)
    ensures Derives(OptionalThen(a, b), w)
  {
    var ps, k := [Optional([Tip(a)]), Tip(b)], |w| - 1;
    assert ps[1..] == [Tip(b)];
    OneOptional(Tip(a), w[..k]);
    OneRequired(Tip(b), w[k..]);
  }

  lemma OneRequired(p: Pattern, w: seq<Taken>)
    ensures DerivesAll([p], w) <==> Derives(p, w)
  {
    assert [p][1..] == [];
    if Derives(p, w) { assert w[..|w|] == w && w[|w|..] == []; }
    if DerivesAll([p], w) {
      var k :| 0 <= k <= |w| && Derives([p][0], w[..k]) && DerivesAll([p][1..], w[k..]);
      assert w[..k] == w;
    }
  }

  lemma OneOptional(p: Pattern, w: seq<Taken>)
    ensures DerivesEach([p], w) <==> w == [] || Derives(p, w)
    ensures Derives(Optional([p]), w) <==> w == [] || Derives(p, w)
  {
    assert [p][1..] == [];
    if w == [] || Derives(p, w) { assert w[..|w|] == w && w[|w|..] == []; }
    if DerivesEach([p], w) {
      var k :| 0 <= k <= |w| && (w[..k] == [] || Derives([p][0], w[..k])) && DerivesEach([p][1..], w[k..]);
      assert w[..k] == w;
    }
  }

  /** A single item both leaves accept is derivable and refused. */
  lemma RefusedVector(a: Leaf, b: Leaf, x: Item)
    requires Accepts(a, x) && Accepts(b, x)
    ensures Derivable(OptionalThen(a, b), [x]) && !Accepted(OptionalThen(a, b), [x])
  {
    var w := [Taken(b, x)];
    OptionalThenDerives(a, b, w);
    assert Items(w) == [x];
    assert SameQueues([x], Items(w));
    OptionalThenMatch(a, b, [x]);
    assert LeafOutcome(a, [x], []).left == [];
  }

  /** Without its part, the first leaf passes the other's item over. */
  lemma FirstPasses(a: Leaf, b: Leaf, argv: seq<Item>, x: Item)
    requires !Overlap(a, b) && Accepts(b, x) && SameQueues(argv, [x])
    ensures SameQueues(LeafOutcome(a, argv, []).left, [x])
  {
    OverlapMeaning(a, b);
    SameQueuesCounts(argv, [x]);
    OneItem(argv, [x]);
  }

  /** The first leaf takes what its part of the word says. */
  lemma FirstTakesItsPart(a: Leaf, b: Leaf, argv: seq<Item>, w: seq<Taken>)
    requires !Overlap(a, b) && Derives(OptionalThen(a, b), w) && SameQueues(argv, Items(w))
    ensures w != [] && Accepts(b, w[|w| - 1].item)
    ensures SameQueues(LeafOutcome(a, argv, []).left, [w[|w| - 1].item])
  {
    hide SameQueues, InOrder, LeafOutcome, Overlap;
    OptionalThenDerived(a, b, w);
    var last := w[|w| - 1].item;
    if |w| == 1 {
      assert Items(w) == [last];
      FirstPasses(a, b, argv, last);
    } else {
      var v, u := w[..1], w[1..];
      assert v + u == w && Items(w) + [] == Items(w);
      JoinAhead(argv, w, []);
      SplitAhead(argv, v, u, []);
      assert Items(v) == [w[0].item] && Items(u) + [] == [last];
      TipComplete(a, w[0].item, argv, [last], []);
    }
  }

  lemma OneItem(a: seq<Item>, b: seq<Item>)
    requires multiset(a) == multiset(b) && |a| == |b| == 1
    ensures a == b
  {
    assert a == [a[0]] && b == [b[0]];
    assert a[0] in multiset(b);
  }

  lemma NoOverlapAccepted(a: Leaf, b: Leaf, argv: seq<Item>)
    requires !Overlap(a, b) && Derivable(OptionalThen(a, b), argv)
    ensures Accepted(OptionalThen(a, b), argv)
  {
    var w: seq<Taken> :| Derives(OptionalThen(a, b), w) && SameQueues(argv, Items(w));
    FirstTakesItsPart(a, b, argv, w);
    OptionalThenMatch(a, b, argv);
    var o, t := LeafOutcome(a, argv, []), w[|w| - 1..];
    assert Items(t) == [t[0].item] && Items(t) + [] == [t[0].item];
    JoinAhead(o.left, t, []);
    TipComplete(b, t[0].item, o.left, [], o.collected);
    SameQueuesCounts(LeafOutcome(b, o.left, o.collected).left, []);
  }

  /** `[a] b` accepts all it derives exactly when no item fits both leaves; so
      `[<a>] <b>` refuses a single argument, and `[-a] <b>` refuses nothing. */
  lemma RefusedExactly(a: Leaf, b: Leaf)
    ensures (forall argv :: Derivable(OptionalThen(a, b), argv) ==> Accepted(OptionalThen(a, b), argv))
            <==> !Overlap(a, b)
  {
    if Overlap(a, b) {
      OverlapMeaning(a, b);
      var x :| Accepts(a, x) && Accepts(b, x);
      RefusedVector(a, b, x);
    } else {
      forall argv | Derivable(OptionalThen(a, b), argv) ensures Accepted(OptionalThen(a, b), argv) {
        NoOverlapAccepted(a, b, argv);
      }
    }
  }
}
