/** The recursive-descent parser of usage patterns, for token sequences without
    option tokens. */
module DocoptParse {
  import opened DocoptPattern
  import DocoptMatch

  // ------------------------------------------------------------ tokens

  predicate IsUpper(t: string) {
    && (exists i :: 0 <= i < |t| && 'A' <= t[i] <= 'Z')
    && (forall i :: 0 <= i < |t| ==> !('a' <= t[i] <= 'z'))
  }

  predicate IsOptionToken(t: string) {
    t != "-" && t != "--" && "-" <= t
  }

  /** What the tokenizer can produce (`token in '(['` is a substring test, so
      the empty token and "([" would be taken for brackets), options aside. */
  predicate Lexed(ts: seq<string>) {
    forall i :: 0 <= i < |ts| ==> ts[i] != "" && ts[i] != "([" && !IsOptionToken(ts[i])
  }

  predicate IsOpener(t: string) { t == "(" || t == "[" }

  predicate IsCloser(t: string) { t == ")" || t == "]" }

  function Closing(t: string): string { if t == "(" then ")" else "]" }

  function Bracketed(t: string, children: seq<Pattern>): Pattern {
    if t == "(" then Required(children) else Optional(children)
  }

  /** An argument if the token is upper-case or in angle brackets, else a command. */
  function AtomLeaf(t: string): Leaf {
    if (|t| >= 1 && t[0] == '<' && t[|t| - 1] == '>') || IsUpper(t)
    then Argument(t, NoValue)
    else Command(t, Flag(false))
  }

  function Starts(ts: seq<string>, t: string): bool { ts != [] && ts[0] == t }

  /** Where a sequence of atoms ends. */
  predicate AtEnd(ts: seq<string>) { ts == [] || IsCloser(ts[0]) || ts[0] == "|" }

  // ---------------------------------------------------- the parse result

  datatype Parsed = Good(patterns: seq<Pattern>, rest: seq<string>) | Unmatched(opener: string)

  datatype Result = Usage(pattern: Pattern) | UnmatchedBracket(opener: string) | UnexpectedEnding(rest: seq<string>)

  function Grouped(ps: seq<Pattern>): seq<Pattern> { if |ps| > 1 then [Required(ps)] else ps }

  function AtomOf(ts: seq<string>): (r: Parsed)
    requires !AtEnd(ts)
    ensures r.Good? ==> |r.rest| < |ts| && |r.patterns| == 1
    decreases |ts|, 0
  {
    if IsOpener(ts[0]) then
      var r := ExprOf(ts[1..]);
      if r.Unmatched? then r
      else if Starts(r.rest, Closing(ts[0])) then Good([Bracketed(ts[0], r.patterns)], r.rest[1..])
      else Unmatched(ts[0])
    else if ts[0] == "options" then Good([OptionsShortcut([])], ts[1..])
    else Good([Tip(AtomLeaf(ts[0]))], ts[1..])
  }

  function SeqOf(ts: seq<string>): (r: Parsed)
    ensures r.Good? ==> |r.rest| <= |ts| && AtEnd(r.rest)
    decreases |ts|, 1
  {
    if AtEnd(ts) then Good([], ts) else
      var a := AtomOf(ts);
      if a.Unmatched? then a else
        var repeated := Starts(a.rest, "...");
        var r := SeqOf(if repeated then a.rest[1..] else a.rest);
        if r.Unmatched? then r
        else Good((if repeated then [OneOrMore(a.patterns)] else a.patterns) + r.patterns, r.rest)
  }

  function ExprOf(ts: seq<string>): (r: Parsed)
    ensures r.Good? ==> |r.rest| <= |ts| && (r.rest == [] || IsCloser(r.rest[0]))
    decreases |ts|, 3
  {
    var s := SeqOf(ts);
    if s.Unmatched? || !Starts(s.rest, "|") then s else AltsOf(Grouped(s.patterns), s.rest)
  }

  function AltsOf(result: seq<Pattern>, ts: seq<string>): (r: Parsed)
    requires AtEnd(ts)
    ensures r.Good? ==> |r.rest| <= |ts| && (r.rest == [] || IsCloser(r.rest[0]))
    decreases |ts|, 2
  {
    if !Starts(ts, "|") then Good(if |result| > 1 then [Either(result)] else result, ts) else
      var s := SeqOf(ts[1..]);
      if s.Unmatched? then s else AltsOf(result + Grouped(s.patterns), s.rest)
  }

  function PatternOf(ts: seq<string>): Result {
    var r := ExprOf(ts);
    if r.Unmatched? then UnmatchedBracket(r.opener)
    else if r.rest != [] then UnexpectedEnding(r.rest)
    else Usage(Required(r.patterns))
  }

  // ------------------------------------------------ the imperative parser

  datatype Token = NoToken | Token(text: string)

  /** The list of tokens that the parser pops from the front. */
  class Tokens {
    var items: seq<string>

    constructor (source: seq<string>)
      ensures items == source
    {
      items := source;
    }

    function Current(): Token
      reads this
    {
      if items == [] then NoToken else Token(items[0])
    }

    method Move() returns (t: Token)
      modifies this
      ensures t == old(Current())
      ensures items == if old(items) == [] then [] else old(items)[1..]
    {
      t := Current();
      if items != [] { items := items[1..]; }
    }
  }

  datatype Step = Done(patterns: seq<Pattern>) | Raised(opener: string)

  /** A method's answer and the tokens it leaves agree with the functions. */
  ghost predicate Agrees(r: Step, rest: seq<string>, p: Parsed) {
    match p
    case Good(ps, rest') => r == Done(ps) && rest == rest'
    case Unmatched(o) => r == Raised(o)
  }

  method ParsePattern(source: seq<string>) returns (r: Result)
    requires Lexed(source)
    ensures r == PatternOf(source)
  {
    var tokens := new Tokens(source);
    var e := ParseExpr(tokens);
    if e.Raised? { return UnmatchedBracket(e.opener); }
    if tokens.Current() != NoToken { return UnexpectedEnding(tokens.items); }
    return Usage(Required(e.patterns));
  }

  method ParseExpr(tokens: Tokens) returns (r: Step)
    modifies tokens
    ensures Agrees(r, tokens.items, ExprOf(old(tokens.items)))
    decreases |tokens.items|, 3
  {
    r := ParseSeq(tokens);
    if r.Raised? || tokens.Current() != Token("|") { return; }
    var result := if |r.patterns| > 1 then [Required(r.patterns)] else r.patterns;
    ghost var goal := ExprOf(old(tokens.items));
    while tokens.Current() == Token("|")
      invariant |tokens.items| <= |old(tokens.items)| && AtEnd(tokens.items)
      invariant goal == AltsOf(result, tokens.items)
      decreases |tokens.items|
    {
      var bar := tokens.Move();
      var s := ParseSeq(tokens);
      if s.Raised? { return s; }
      result := result + if |s.patterns| > 1 then [Required(s.patterns)] else s.patterns;
    }
    r := Done(if |result| > 1 then [Either(result)] else result);
  }

  /** What is parsed already, in front of what is still to be parsed. */
  ghost function After(done: seq<Pattern>, p: Parsed): Parsed {
    if p.Unmatched? then p else Good(done + p.patterns, p.rest)
  }

  /** One atom further, with or without an ellipsis. */
  lemma SeqStep(done: seq<Pattern>, ts: seq<string>)
    requires !AtEnd(ts)
    ensures AtomOf(ts).Unmatched? ==> SeqOf(ts) == AtomOf(ts)
    ensures AtomOf(ts).Good? ==>
              var a := AtomOf(ts);
              var repeated := Starts(a.rest, "...");
              After(done, SeqOf(ts)) ==
              After(done + (if repeated then [OneOrMore(a.patterns)] else a.patterns),
                    SeqOf(if repeated then a.rest[1..] else a.rest))
  {
    var a := AtomOf(ts);
    if a.Good? {
      var repeated := Starts(a.rest, "...");
      var first := if repeated then [OneOrMore(a.patterns)] else a.patterns;
      var r := SeqOf(if repeated then a.rest[1..] else a.rest);
      if r.Good? { assert done + (first + r.patterns) == done + first + r.patterns; }
    }
  }

  method ParseSeq(tokens: Tokens) returns (r: Step)
    modifies tokens
    ensures Agrees(r, tokens.items, SeqOf(old(tokens.items)))
    decreases |tokens.items|, 1
  {
    var result: seq<Pattern> := [];
    ghost var goal := SeqOf(tokens.items);
    assert goal.Good? ==> [] + goal.patterns == goal.patterns;
    while tokens.Current() != NoToken && tokens.Current().text !in ["]", ")", "|"]
      invariant |tokens.items| <= |old(tokens.items)|
      invariant goal == After(result, SeqOf(tokens.items))
      decreases |tokens.items|
    {
      SeqStep(result, tokens.items);
      var a := ParseAtom(tokens);
      if a.Raised? { return a; }
      var atom := a.patterns;
      if tokens.Current() == Token("...") {
        atom := [OneOrMore(atom)];
        var dots := tokens.Move();
      }
      result := result + atom;
    }
    r := Done(result);
  }

  method ParseAtom(tokens: Tokens) returns (r: Step)
    requires !AtEnd(tokens.items)
    modifies tokens
    ensures Agrees(r, tokens.items, AtomOf(old(tokens.items)))
    decreases |tokens.items|, 0
  {
    var token := tokens.Current().text;
    if token == "(" || token == "[" {
      var opener := tokens.Move();
      var e := ParseExpr(tokens);
      if e.Raised? { return e; }
      var closer := tokens.Move();
      if closer != Token(Closing(token)) { return Raised(token); }
      return Done([Bracketed(token, e.patterns)]);
    } else if token == "options" {
      var word := tokens.Move();
      return Done([OptionsShortcut([])]);
    } else {
      var atom := tokens.Move();
      return Done([Tip(AtomLeaf(atom.text))]);
    }
  }

  // -------------------------------------- brackets and leaves, token by token

  /** Round and square brackets nest properly by kind; `open` lists the closing
      brackets still awaited, innermost first. */
  predicate Nests(ts: seq<string>, open: seq<string>) {
    if ts == [] then open == []
    else if IsOpener(ts[0]) then Nests(ts[1..], [Closing(ts[0])] + open)
    else if IsCloser(ts[0]) then open != [] && open[0] == ts[0] && Nests(ts[1..], open[1..])
    else Nests(ts[1..], open)
  }

  /** The atom leaves in token order. An ellipsis that can repeat something
      (`after` an atom or a closing bracket) is not a leaf. */
  function Leaves(ts: seq<string>, after: bool): seq<Leaf> {
    if ts == [] then []
    else if IsOpener(ts[0]) || ts[0] == "|" then Leaves(ts[1..], false)
    else if IsCloser(ts[0]) || ts[0] == "options" then Leaves(ts[1..], true)
    else if ts[0] == "..." && after then Leaves(ts[1..], false)
    else [AtomLeaf(ts[0])] + Leaves(ts[1..], true)
  }

  /** `p` parsed from `ts`: it fails only on bad nesting, and otherwise what it
      consumed is balanced and has the leaves of the patterns. */
  ghost predicate Tracks(ts: seq<string>, p: Parsed, after: bool, open: seq<string>) {
    match p
    case Unmatched(_) => !Nests(ts, open)
    case Good(ps, rest) =>
      && Nests(ts, open) == Nests(rest, open)
      && Leaves(ts, false) == FlatAll(ps) + Leaves(rest, after)
  }

  lemma EllipsisIgnored(ts: seq<string>, a: bool, b: bool)
    requires !Starts(ts, "...")
    ensures Leaves(ts, a) == Leaves(ts, b)
  {}

  lemma FlatOne(p: Pattern)
    ensures FlatAll([p]) == Flat(p)
  {
    assert [p][1..] == [];
  }

  lemma {:induction false} AtomTracks(ts: seq<string>, open: seq<string>)
    requires !AtEnd(ts)
    ensures Tracks(ts, AtomOf(ts), true, open)
    decreases |ts|, 0
  {
    if IsOpener(ts[0]) {
      var c := Closing(ts[0]);
      ExprTracks(ts[1..], [c] + open);
      var r := ExprOf(ts[1..]);
      if r.Good? {
        FlatOne(Bracketed(ts[0], r.patterns));
        if Starts(r.rest, c) {
          assert ([c] + open)[1..] == open;
          assert Leaves(r.rest, false) == Leaves(r.rest[1..], true);
        }
      }
    } else if ts[0] != "options" {
      FlatOne(Tip(AtomLeaf(ts[0])));
    } else {
      FlatOne(OptionsShortcut([]));
    }
  }

  lemma {:induction false} SeqTracks(ts: seq<string>, open: seq<string>)
    ensures Tracks(ts, SeqOf(ts), false, open)
    decreases |ts|, 1
  {
    if !AtEnd(ts) {
      AtomTracks(ts, open);
      var a := AtomOf(ts);
      if a.Good? {
        var repeated := Starts(a.rest, "...");
        var next := if repeated then a.rest[1..] else a.rest;
        SeqTracks(next, open);
        if !repeated { EllipsisIgnored(a.rest, true, false); }
        var r := SeqOf(next);
        if r.Good? {
          var first := if repeated then [OneOrMore(a.patterns)] else a.patterns;
          if repeated { FlatOne(OneOrMore(a.patterns)); }
          FlatAllConcat(first, r.patterns);
        }
      }
    }
  }

  lemma FlatGrouped(ps: seq<Pattern>)
    ensures FlatAll(Grouped(ps)) == FlatAll(ps)
  {
    FlatOne(Required(ps));
  }

  lemma {:induction false} ExprTracks(ts: seq<string>, open: seq<string>)
    ensures Tracks(ts, ExprOf(ts), false, open)
    decreases |ts|, 3
  {
    SeqTracks(ts, open);
    var s := SeqOf(ts);
    if s.Good? && Starts(s.rest, "|") {
      AltsTrack(Grouped(s.patterns), s.rest, open);
      FlatGrouped(s.patterns);
    }
  }

  /** As Tracks, with the leaves of the alternatives already parsed in front. */
  ghost predicate TracksAfter(result: seq<Leaf>, ts: seq<string>, p: Parsed, open: seq<string>) {
    match p
    case Unmatched(_) => !Nests(ts, open)
    case Good(ps, rest) =>
      && Nests(ts, open) == Nests(rest, open)
      && result + Leaves(ts, false) == FlatAll(ps) + Leaves(rest, false)
  }

  lemma TracksAfterTrans(a: seq<Leaf>, b: seq<Leaf>, ts: seq<string>, ts': seq<string>, p: Parsed, open: seq<string>)
    requires TracksAfter(a + b, ts', p, open)
    requires Nests(ts, open) == Nests(ts', open) && Leaves(ts, false) == b + Leaves(ts', false)
    ensures TracksAfter(a, ts, p, open)
  {
    assert a + b + Leaves(ts', false) == a + Leaves(ts, false);
  }

  lemma {:induction false} AltsTrack(result: seq<Pattern>, ts: seq<string>, open: seq<string>)
    requires AtEnd(ts)
    ensures TracksAfter(FlatAll(result), ts, AltsOf(result, ts), open)
    decreases |ts|, 2
  {
    if !Starts(ts, "|") {
      FlatOne(Either(result));
    } else {
      SeqTracks(ts[1..], open);
      var s := SeqOf(ts[1..]);
      if s.Good? {
        AltsTrack(result + Grouped(s.patterns), s.rest, open);
        FlatAllConcat(result, Grouped(s.patterns));
        FlatGrouped(s.patterns);
        TracksAfterTrans(FlatAll(result), FlatAll(s.patterns), ts, s.rest, AltsOf(result, ts), open);
      }
    }
  }

  /** Parsing succeeds exactly on properly nested brackets, and then `flat` of
      the result lists the atom leaves in token order. */
  lemma ParseMeaning(ts: seq<string>)
    ensures PatternOf(ts).Usage? <==> Nests(ts, [])
    ensures PatternOf(ts).Usage? ==> Flat(PatternOf(ts).pattern) == Leaves(ts, false)
  {
    ExprTracks(ts, []);
  }

  // ------------------------------------------------------ which error is raised

  /** What a scan for brackets finds; `open` lists the open ones, innermost first. */
  datatype Scan = Balanced | Stray(rest: seq<string>) | Unclosed(opener: string)

  function ScanOf(ts: seq<string>, open: seq<string>): Scan {
    if ts == [] then (if open == [] then Balanced else Unclosed(open[0]))
    else if ts[0] == "(" || ts[0] == "[" then ScanOf(ts[1..], [ts[0]] + open)
    else if ts[0] == ")" || ts[0] == "]" then
      if open == [] then Stray(ts)
      else if (open[0] == "(" && ts[0] == ")") || (open[0] == "[" && ts[0] == "]") then ScanOf(ts[1..], open[1..])
      else Unclosed(open[0])
    else ScanOf(ts[1..], open)
  }

  ghost predicate Scans(ts: seq<string>, p: Parsed, open: seq<string>) {
    match p
    case Unmatched(o) => ScanOf(ts, open) == Unclosed(o)
    case Good(_, rest) => ScanOf(ts, open) == ScanOf(rest, open)
  }

  lemma {:induction false} AtomScans(ts: seq<string>, open: seq<string>)
    requires !AtEnd(ts)
    ensures Scans(ts, AtomOf(ts), open)
    decreases |ts|, 0
  {
    if IsOpener(ts[0]) {
      ExprScans(ts[1..], [ts[0]] + open);
      assert ([ts[0]] + open)[1..] == open;
    }
  }

  lemma {:induction false} SeqScans(ts: seq<string>, open: seq<string>)
    ensures Scans(ts, SeqOf(ts), open)
    decreases |ts|, 1
  {
    if !AtEnd(ts) {
      AtomScans(ts, open);
      var a := AtomOf(ts);
      if a.Good? { SeqScans(if Starts(a.rest, "...") then a.rest[1..] else a.rest, open); }
    }
  }

  lemma {:induction false} ExprScans(ts: seq<string>, open: seq<string>)
    ensures Scans(ts, ExprOf(ts), open)
    decreases |ts|, 3
  {
    SeqScans(ts, open);
    var s := SeqOf(ts);
    if s.Good? && Starts(s.rest, "|") { AltsScan(Grouped(s.patterns), s.rest, open); }
  }

  lemma {:induction false} AltsScan(result: seq<Pattern>, ts: seq<string>, open: seq<string>)
    requires AtEnd(ts)
    ensures Scans(ts, AltsOf(result, ts), open)
    decreases |ts|, 2
  {
    if Starts(ts, "|") {
      SeqScans(ts[1..], open);
      var s := SeqOf(ts[1..]);
      if s.Good? { AltsScan(result + Grouped(s.patterns), s.rest, open); }
    }
  }

  /** The error names the innermost bracket that is not closed by its own kind, or
      lists the tokens from the first bracket that closes nothing. */
  lemma ErrorIsExact(ts: seq<string>)
    ensures match ScanOf(ts, [])
            case Balanced => PatternOf(ts).Usage?
            case Stray(rest) => PatternOf(ts) == UnexpectedEnding(rest)
            case Unclosed(opener) => PatternOf(ts) == UnmatchedBracket(opener)
  {
    ExprScans(ts, []);
  }

  // ------------------------------------------ what a single word is read as

  /** A token that is no bracket, bar or option, nor the word "options". */
  predicate IsWord(t: string) {
    t !in {"", "(", ")", "[", "]", "([", "|", "options"} && (t[0] == '-' ==> t == "-" || t == "--")
  }

  lemma WordAlone(t: string)
    requires IsWord(t)
    ensures PatternOf([t]) == Usage(Required([Tip(AtomLeaf(t))]))
  {
    assert [t][1..] == [];
    assert AtomOf([t]) == Good([Tip(AtomLeaf(t))], []);
    assert SeqOf([t]) == Good([Tip(AtomLeaf(t))] + [], []);
    assert [Tip(AtomLeaf(t))] + [] == [Tip(AtomLeaf(t))];
  }

  /** A word in angle brackets is an argument of that name. */
  lemma AngleBracketsRead(s: string)
    ensures var t := "<" + s + ">";
            PatternOf([t]) == Usage(Required([Tip(Argument(t, NoValue))]))
  {
    var t := "<" + s + ">";
    assert t[0] == '<' && t[|t| - 1] == '>';
    assert "("[0] == '(' && "(["[0] == '(' && ")"[0] == ')' && "["[0] == '[' && "]"[0] == ']';
    assert "|"[0] == '|' && "options"[0] == 'o';
    WordAlone(t);
  }

  /** So is one with an upper-case letter and no lower-case one; any other word is
      a command of that name. */
  lemma WordRead(t: string)
    requires IsWord(t) && !(t[0] == '<' && t[|t| - 1] == '>')
    ensures var upper := (exists i :: 0 <= i < |t| && 'A' <= t[i] <= 'Z')
                         && forall i :: 0 <= i < |t| ==> !('a' <= t[i] <= 'z');
            PatternOf([t]) == Usage(Required([Tip(if upper then Argument(t, NoValue) else Command(t, Flag(false)))]))
  {
    WordAlone(t);
  }

  /** The word "options" stands for all options of the usage. */
  lemma OptionsRead()
    ensures PatternOf(["options"]) == Usage(Required([OptionsShortcut([])]))
  {
    var ts := ["options"];
    assert ts[1..] == [];
    assert AtomOf(ts) == Good([OptionsShortcut([])], []);
    assert SeqOf(ts) == Good([OptionsShortcut([])] + [], []);
    assert [OptionsShortcut([])] + [] == [OptionsShortcut([])];
  }

  // ------------------------------------------------------------- odd inputs

  /** An empty alternative leaves no trace: a bar in front only makes one pattern
      of what follows it, and a second bar does nothing. */
  lemma LeadingBar(ts: seq<string>)
    ensures var s := SeqOf(ts);
            ExprOf(["|"] + ts) == if s.Unmatched? || Starts(s.rest, "|") || |s.patterns| <= 1 then ExprOf(ts)
                                  else Good([Required(s.patterns)], s.rest)
  {
    var barred, s := ["|"] + ts, SeqOf(ts);
    assert barred[1..] == ts && ExprOf(barred) == AltsOf([], barred);
    if s.Good? {
      var first := Grouped(s.patterns);
      assert [] + first == first;
      assert AltsOf([], barred) == AltsOf(first, s.rest);
      if !Starts(s.rest, "|") { assert AltsOf(first, s.rest) == Good(first, s.rest); }
    }
  }

  lemma DoubledBar(result: seq<Pattern>, ts: seq<string>)
    ensures AltsOf(result, ["|", "|"] + ts) == AltsOf(result, ["|"] + ts)
  {
    assert (["|", "|"] + ts)[1..] == ["|"] + ts;
    assert result + [] == result;
  }

  /** `( | a)` is read as `(a)`. */
  lemma EmptyAlternativeDropped()
    ensures PatternOf(["(", "|", "a", ")"]) == PatternOf(["(", "a", ")"])
  {
    var ts, bar := ["a", ")"], ["(", "|", "a", ")"];
    assert bar[1..] == ["|"] + ts && ["(", "a", ")"][1..] == ts && ts[1..] == [")"];
    assert SeqOf(ts) == Good([Tip(AtomLeaf("a"))], [")"]);
    LeadingBar(ts);
    assert AtomOf(bar) == AtomOf(["(", "a", ")"]);
    assert SeqOf(bar) == SeqOf(["(", "a", ")"]);
  }

  /** An ellipsis where an atom is expected is a command of that name. */
  lemma LoneEllipsis(ts: seq<string>)
    ensures AtomOf(["..."] + ts) == Good([Tip(Command("...", Flag(false)))], ts)
  {
    assert (["..."] + ts)[1..] == ts;
    assert forall i :: 0 <= i < |"..."| ==> "..."[i] == '.';
  }

  // ------------------------------------------------- printing and reading back

  /** The shape of the patterns the parser builds for one atom. */
  predicate NormalAtom(p: Pattern)
    decreases p, 0
  {
    match p
    case Tip(l) => l == AtomLeaf(l.Name())
    case Required(cs) => NormalExpr(cs)
    case Optional(cs) => NormalExpr(cs)
    case OptionsShortcut(cs) => cs == []
    case OneOrMore(cs) => |cs| == 1 && NormalAtom(cs[0]) && !cs[0].OneOrMore?
    case Either(_) => false
  }

  predicate NormalAtoms(ps: seq<Pattern>)
    decreases ps, 1
  {
    ps == [] || (NormalAtom(ps[0]) && NormalAtoms(ps[1..]))
  }

  /** Either a plain sequence of atoms, or one Either of at least two atoms. */
  predicate NormalExpr(ps: seq<Pattern>)
    decreases ps, 2
  {
    NormalAtoms(ps) || (|ps| == 1 && ps[0].Either? && |ps[0].children| >= 2 && NormalAtoms(ps[0].children))
  }

  lemma {:induction false} NormalConcat(ps: seq<Pattern>, qs: seq<Pattern>)
    ensures NormalAtoms(ps + qs) <==> NormalAtoms(ps) && NormalAtoms(qs)
  {
    if ps == [] {
      assert ps + qs == qs;
    } else {
      assert (ps + qs)[1..] == ps[1..] + qs;
      NormalConcat(ps[1..], qs);
    }
  }

  lemma NormalOne(p: Pattern)
    ensures NormalAtoms([p]) <==> NormalAtom(p)
  {
    assert [p][1..] == [];
  }

  lemma {:induction false} AtomNormal(ts: seq<string>)
    requires !AtEnd(ts) && AtomOf(ts).Good?
    ensures NormalAtom(AtomOf(ts).patterns[0]) && !AtomOf(ts).patterns[0].OneOrMore?
    decreases |ts|, 0
  {
    if IsOpener(ts[0]) { ExprNormal(ts[1..]); }
  }

  lemma {:induction false} SeqNormal(ts: seq<string>)
    requires SeqOf(ts).Good?
    ensures NormalAtoms(SeqOf(ts).patterns)
    decreases |ts|, 1
  {
    if !AtEnd(ts) {
      AtomNormal(ts);
      var a := AtomOf(ts);
      var repeated := Starts(a.rest, "...");
      SeqNormal(if repeated then a.rest[1..] else a.rest);
      NormalOne(a.patterns[0]);
      NormalOne(OneOrMore(a.patterns));
      assert a.patterns == [a.patterns[0]];
      NormalConcat(if repeated then [OneOrMore(a.patterns)] else a.patterns,
                   SeqOf(if repeated then a.rest[1..] else a.rest).patterns);
    }
  }

  lemma NormalGrouped(ps: seq<Pattern>)
    requires NormalAtoms(ps)
    ensures NormalAtoms(Grouped(ps))
  {
    NormalOne(Required(ps));
  }

  lemma {:induction false} ExprNormal(ts: seq<string>)
    requires ExprOf(ts).Good?
    ensures NormalExpr(ExprOf(ts).patterns)
    decreases |ts|, 3
  {
    SeqNormal(ts);
    var s := SeqOf(ts);
    if Starts(s.rest, "|") {
      NormalGrouped(s.patterns);
      AltsNormal(Grouped(s.patterns), s.rest);
    }
  }

  lemma {:induction false} AltsNormal(result: seq<Pattern>, ts: seq<string>)
    requires AtEnd(ts) && NormalAtoms(result) && AltsOf(result, ts).Good?
    ensures NormalExpr(AltsOf(result, ts).patterns)
    decreases |ts|, 2
  {
    if Starts(ts, "|") {
      SeqNormal(ts[1..]);
      var s := SeqOf(ts[1..]);
      NormalGrouped(s.patterns);
      NormalConcat(result, Grouped(s.patterns));
      AltsNormal(result + Grouped(s.patterns), s.rest);
    }
  }

  /** Names that a single token can stand for. */
  predicate PlainName(n: string) {
    !IsOpener(n) && !IsCloser(n) && n != "|" && n != "..." && n != "options"
  }

  predicate Plain(p: Pattern) {
    match p
    case Tip(l) => PlainName(l.Name())
    case Required(cs) => AllPlain(cs)
    case Optional(cs) => AllPlain(cs)
    case OptionsShortcut(cs) => AllPlain(cs)
    case OneOrMore(cs) => AllPlain(cs)
    case Either(cs) => AllPlain(cs)
  }

  predicate AllPlain(ps: seq<Pattern>) {
    ps == [] || (Plain(ps[0]) && AllPlain(ps[1..]))
  }

  /** The tokens of an atom, ellipsis included. */
  function ShowAtom(p: Pattern): (ts: seq<string>)
    requires NormalAtom(p)
    ensures ts != []
    decreases p, 0
  {
    match p
    case Tip(l) => [l.Name()]
    case Required(cs) => ["("] + ShowExpr(cs) + [")"]
    case Optional(cs) => ["["] + ShowExpr(cs) + ["]"]
    case OptionsShortcut(_) => ["options"]
    case OneOrMore(cs) => ShowAtom(cs[0]) + ["..."]
  }

  function ShowAtoms(ps: seq<Pattern>): seq<string>
    requires NormalAtoms(ps)
    decreases ps, 1
  {
    if ps == [] then [] else ShowAtom(ps[0]) + ShowAtoms(ps[1..])
  }

  function ShowAlts(ps: seq<Pattern>): seq<string>
    requires NormalAtoms(ps)
    decreases ps, 1
  {
    if ps == [] then [] else ["|"] + ShowAtom(ps[0]) + ShowAlts(ps[1..])
  }

  function ShowExpr(ps: seq<Pattern>): seq<string>
    requires NormalExpr(ps)
    decreases ps, 2
  {
    if NormalAtoms(ps) then ShowAtoms(ps) else ShowEither(ps[0].children)
  }

  function ShowEither(alts: seq<Pattern>): seq<string>
    requires alts != [] && NormalAtoms(alts)
    decreases alts, 2
  {
    ShowAtom(alts[0]) + ShowAlts(alts[1..])
  }

  /** An atom never starts like the end of a sequence or like an ellipsis. */
  lemma {:induction false} ShowAtomStart(p: Pattern)
    requires NormalAtom(p) && Plain(p)
    ensures !AtEnd(ShowAtom(p)) && !Starts(ShowAtom(p), "...")
  {
    match p
    case Tip(_) =>
    case OneOrMore(cs) => ShowAtomStart(cs[0]);
    case Required(_) =>
    case Optional(_) =>
    case OptionsShortcut(_) =>
  }

  lemma {:induction false} ReadAtom(p: Pattern, rest: seq<string>)
    requires NormalAtom(p) && Plain(p) && !p.OneOrMore?
    ensures !AtEnd(ShowAtom(p) + rest) && AtomOf(ShowAtom(p) + rest) == Good([p], rest)
    decreases p, 0
  {
    ShowAtomStart(p);
    var ts := ShowAtom(p) + rest;
    match p
    case Tip(_) => assert ts[1..] == rest;
    case Required(cs) =>
      assert ts[1..] == ShowExpr(cs) + ([")"] + rest);
      ReadExpr(cs, [")"] + rest);
    case Optional(cs) =>
      assert ts[1..] == ShowExpr(cs) + (["]"] + rest);
      ReadExpr(cs, ["]"] + rest);
    case OptionsShortcut(_) => assert ts[1..] == rest;
  }

  /** One atom, with its ellipsis if it is repeated, in front of a sequence. */
  lemma {:induction false} ReadItem(p: Pattern, rest: seq<string>)
    requires NormalAtom(p) && Plain(p) && !Starts(rest, "...")
    ensures SeqOf(ShowAtom(p) + rest) == After([p], SeqOf(rest))
    decreases p, 1
  {
    if p.OneOrMore? {
      var c := p.children[0];
      assert p.children == [c];
      assert ShowAtom(p) + rest == ShowAtom(c) + (["..."] + rest);
      ReadAtom(c, ["..."] + rest);
      assert (["..."] + rest)[1..] == rest;
    } else {
      ReadAtom(p, rest);
    }
  }

  /** What follows an atom never starts like an ellipsis. */
  lemma NoEllipsisNext(ps: seq<Pattern>, rest: seq<string>)
    requires NormalAtoms(ps) && AllPlain(ps) && AtEnd(rest)
    ensures !Starts(ShowAtoms(ps) + rest, "...")
  {
    if ps == [] {
      assert ShowAtoms(ps) + rest == rest;
    } else {
      ShowAtomStart(ps[0]);
    }
  }

  lemma {:induction false} ReadAtoms(ps: seq<Pattern>, rest: seq<string>)
    requires NormalAtoms(ps) && AllPlain(ps) && AtEnd(rest)
    ensures SeqOf(ShowAtoms(ps) + rest) == Good(ps, rest)
    decreases ps, 1
  {
    if ps == [] {
      assert ShowAtoms(ps) + rest == rest;
    } else {
      assert [ps[0]] + ps[1..] == ps;
      var next := ShowAtoms(ps[1..]) + rest;
      hide SeqOf, ShowAtom;
      ReadAtoms(ps[1..], rest);
      NoEllipsisNext(ps[1..], rest);
      assert ShowAtoms(ps) + rest == ShowAtom(ps[0]) + next;
      ReadItem(ps[0], next);
    }
  }

  /** One alternative, up to the bar or the end after it. */
  lemma {:induction false} ReadAlt(p: Pattern, rest: seq<string>)
    requires NormalAtom(p) && Plain(p) && AtEnd(rest)
    ensures SeqOf(ShowAtom(p) + rest) == Good([p], rest)
    decreases p, 2
  {
    ReadItem(p, rest);
    assert SeqOf(rest) == Good([], rest);
    assert [p] + [] == [p];
  }

  lemma ReadBar(result: seq<Pattern>, p: Pattern, ts: seq<string>, next: seq<string>)
    requires AtEnd(next) && SeqOf(ts) == Good([p], next)
    ensures AltsOf(result, ["|"] + ts) == AltsOf(result + [p], next)
  {
    assert (["|"] + ts)[1..] == ts;
    assert Grouped([p]) == [p];
  }

  lemma AltsEnd(result: seq<Pattern>, rest: seq<string>)
    requires |result| > 1 && (rest == [] || IsCloser(rest[0]))
    ensures AltsOf(result, rest) == Good([Either(result)], rest)
  {}

  lemma ShowAltsCons(ps: seq<Pattern>, rest: seq<string>)
    requires ps != [] && NormalAtoms(ps)
    ensures ShowAlts(ps) + rest == ["|"] + (ShowAtom(ps[0]) + (ShowAlts(ps[1..]) + rest))
  {
    var a, b := ShowAtom(ps[0]), ShowAlts(ps[1..]);
    assert ["|"] + a + b + rest == ["|"] + (a + (b + rest));
  }

  lemma {:induction false} ReadAlts(result: seq<Pattern>, ps: seq<Pattern>, rest: seq<string>)
    requires NormalAtoms(ps) && AllPlain(ps) && (rest == [] || IsCloser(rest[0]))
    requires |result| + |ps| > 1
    ensures AtEnd(ShowAlts(ps) + rest)
    ensures AltsOf(result, ShowAlts(ps) + rest) == Good([Either(result + ps)], rest)
    decreases ps, 1
  {
    hide SeqOf, AltsOf, ShowAtom, NormalAtom, Plain;
    if ps == [] {
      assert ShowAlts(ps) + rest == rest;
      assert result + ps == result;
      AltsEnd(result, rest);
    } else {
      assert result + [ps[0]] + ps[1..] == result + ps;
      var next := ShowAlts(ps[1..]) + rest;
      ShowAltsCons(ps, rest);
      ReadAlts(result + [ps[0]], ps[1..], rest);
      ReadAlt(ps[0], next);
      ReadBar(result, ps[0], ShowAtom(ps[0]) + next, next);
    }
  }

  lemma {:induction false} ReadEither(alts: seq<Pattern>, rest: seq<string>)
    requires |alts| >= 2 && NormalAtoms(alts) && AllPlain(alts) && (rest == [] || IsCloser(rest[0]))
    ensures ExprOf(ShowEither(alts) + rest) == Good([Either(alts)], rest)
    decreases alts, 2
  {
    var next := ShowAlts(alts[1..]) + rest;
    assert ShowEither(alts) + rest == ShowAtom(alts[0]) + next;
    ReadAlts([alts[0]], alts[1..], rest);
    ReadAlt(alts[0], next);
    assert next[0] == "|";
    assert Grouped([alts[0]]) == [alts[0]];
    assert [alts[0]] + alts[1..] == alts;
  }

  lemma {:induction false} ReadExpr(ps: seq<Pattern>, rest: seq<string>)
    requires NormalExpr(ps) && AllPlain(ps) && (rest == [] || IsCloser(rest[0]))
    ensures ExprOf(ShowExpr(ps) + rest) == Good(ps, rest)
    decreases ps, 2
  {
    if NormalAtoms(ps) {
      ReadAtoms(ps, rest);
    } else {
      assert Plain(ps[0]);
      ReadEither(ps[0].children, rest);
      assert ps == [ps[0]];
    }
  }

  /** A pattern printed as usage text and parsed again is the same pattern. */
  lemma ParseOfShow(p: Pattern)
    requires p.Required? && NormalExpr(p.children) && Plain(p)
    ensures PatternOf(ShowExpr(p.children)) == Usage(p)
  {
    assert ShowExpr(p.children) + [] == ShowExpr(p.children);
    ReadExpr(p.children, []);
  }

  lemma {:induction false} NormalIsWellFormed(p: Pattern)
    requires NormalAtom(p)
    ensures DocoptMatch.WellFormed(p)
    decreases p, 0
  {
    match p
    case Tip(_) =>
    case Required(cs) => NormalExprWellFormed(cs);
    case Optional(cs) => NormalExprWellFormed(cs);
    case OptionsShortcut(_) =>
    case OneOrMore(cs) => NormalIsWellFormed(cs[0]);
  }

  lemma {:induction false} NormalAtomsWellFormed(ps: seq<Pattern>)
    requires NormalAtoms(ps)
    ensures DocoptMatch.AllWellFormed(ps)
    decreases ps, 1
  {
    if ps != [] {
      NormalIsWellFormed(ps[0]);
      NormalAtomsWellFormed(ps[1..]);
    }
  }

  lemma {:induction false} NormalExprWellFormed(ps: seq<Pattern>)
    requires NormalExpr(ps)
    ensures DocoptMatch.AllWellFormed(ps)
    decreases ps, 2
  {
    if NormalAtoms(ps) {
      NormalAtomsWellFormed(ps);
    } else {
      NormalAtomsWellFormed(ps[0].children);
      assert ps == [ps[0]] && DocoptMatch.WellFormed(ps[0]) && ps[1..] == [];
    }
  }

  /** Every pattern the parser builds is in normal form, so it can be printed
      back, and the matcher's assertion about OneOrMore never fires on it. */
  lemma ParsedIsNormal(ts: seq<string>)
    requires PatternOf(ts).Usage?
    ensures var p := PatternOf(ts).pattern;
            p.Required? && NormalExpr(p.children) && DocoptMatch.WellFormed(p)
    ensures var p := PatternOf(ts).pattern;
            Plain(p) ==> PatternOf(ShowExpr(p.children)) == PatternOf(ts)
  {
    var p := PatternOf(ts).pattern;
    ExprNormal(ts);
    NormalExprWellFormed(p.children);
    if Plain(p) { ParseOfShow(p); }
  }
}
