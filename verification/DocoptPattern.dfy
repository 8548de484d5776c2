/** The pattern tree of docopt: leaves (arguments, commands, options) and the
    branch nodes that combine them. */
module DocoptPattern {

  /** A leaf's value; its Python type decides whether the leaf accumulates. */
  datatype Value = NoValue | Flag(b: bool) | Count(n: nat) | Text(s: string) | Texts(ss: seq<string>)
  {
    /** `type(self.value) in (int, list)` */
    predicate Accumulates() { Count? || Texts? }
  }

  /** An absent short or long spelling is the empty string. */
  datatype Leaf =
    | Argument(argName: string, value: Value)
    | Command(cmdName: string, value: Value)
    | Opt(short: string, long: string, argcount: nat, value: Value)
  {
    function Name(): string {
      match this
      case Argument(n, _) => n
      case Command(n, _) => n
      case Opt(short, long, _, _) => if long != "" then long else short
    }
  }

  datatype Pattern =
    | Tip(leaf: Leaf)
    | Required(children: seq<Pattern>)
    | Optional(children: seq<Pattern>)
    | OptionsShortcut(children: seq<Pattern>)
    | OneOrMore(children: seq<Pattern>)
    | Either(children: seq<Pattern>)

  /** `flat()` with no type filter: the leaves from left to right. */
  function Flat(p: Pattern): seq<Leaf> {
    match p
    case Tip(l) => [l]
    case Required(cs) => FlatAll(cs)
    case Optional(cs) => FlatAll(cs)
    case OptionsShortcut(cs) => FlatAll(cs)
    case OneOrMore(cs) => FlatAll(cs)
    case Either(cs) => FlatAll(cs)
  }

  function FlatAll(ps: seq<Pattern>): seq<Leaf> {
    if ps == [] then [] else Flat(ps[0]) + FlatAll(ps[1..])
  }

  lemma {:induction false} FlatAllConcat(ps: seq<Pattern>, qs: seq<Pattern>)
    ensures FlatAll(ps + qs) == FlatAll(ps) + FlatAll(qs)
  {
    if ps == [] {
      assert ps + qs == qs;
    } else {
      FlatAllConcat(ps[1..], qs);
      assert (ps + qs)[1..] == ps[1..] + qs;
      assert Flat(ps[0]) + (FlatAll(ps[1..]) + FlatAll(qs)) == Flat(ps[0]) + FlatAll(ps[1..]) + FlatAll(qs);
    }
  }
}
