/** The Gmail-style query parser: tokens to syntax tree (packages/mail-service/src/query-parser.ts,
    lines 122 to 182). */
module QueryParser {
  import opened Common

  datatype Kind = Body | Op(op: string)

  datatype Term = Term(kind: Kind, value: string, negated: bool)

  datatype Token = TermToken(term: Term) | OrToken | Open | Close

  datatype Ast = Leaf(term: Term) | Or(children: seq<Ast>) | And(children: seq<Ast>)

  /** What a parse function returns: a tree or null, and the position it stopped at. */
  datatype Parsed = Parsed(ast: Option<Ast>, rest: seq<Token>)

  // ---- The grammar, over the tokens that are left ----

  /** Whether parseAnd's loop goes on at this token: lines 147 to 151. */
  predicate StartsAtom(tokens: seq<Token>) {
    tokens != [] && !tokens[0].OrToken? && !tokens[0].Close?
  }

  function Collected(items: seq<Ast>, disjunction: bool): Option<Ast> {
    if items == [] then None
    else if |items| == 1 then Some(items[0])
    else if disjunction then Some(Or(items)) else Some(And(items))
  }

  function Kept(ast: Option<Ast>): seq<Ast> {
    if ast.Some? then [ast.value] else []
  }

  function ParseOr(tokens: seq<Token>): (r: Parsed)
    ensures |r.rest| <= |tokens|
    decreases |tokens|, 3
  {
    var left := ParseAnd(tokens);
    var more := OrItems(left.rest);
    Parsed(Collected(Kept(left.ast) + more.0, true), more.1)
  }

  /** parseOr's loop: every further `OR` and its right-hand side. */
  function OrItems(tokens: seq<Token>): (r: (seq<Ast>, seq<Token>))
    ensures |r.1| <= |tokens|
    decreases |tokens|, 0
  {
    if tokens == [] || !tokens[0].OrToken? then ([], tokens)
    else
      var right := ParseAnd(tokens[1..]);
      var more := OrItems(right.rest);
      (Kept(right.ast) + more.0, more.1)
  }

  function ParseAnd(tokens: seq<Token>): (r: Parsed)
    ensures |r.rest| <= |tokens|
    decreases |tokens|, 2
  {
    var items := AndItems(tokens);
    Parsed(Collected(items.0, false), items.1)
  }

  /** parseAnd's loop: atoms up to an `OR`, a closing parenthesis or the end. */
  function AndItems(tokens: seq<Token>): (r: (seq<Ast>, seq<Token>))
    ensures |r.1| <= |tokens|
    decreases |tokens|, 1
  {
    if !StartsAtom(tokens) then ([], tokens)
    else
      var atom := ParseAtom(tokens);
      var more := AndItems(atom.rest);
      (Kept(atom.ast) + more.0, more.1)
  }

  /** Progress: where an atom starts, a token is always used up. */
  function ParseAtom(tokens: seq<Token>): (r: Parsed)
    ensures |r.rest| <= |tokens| && (tokens != [] ==> |r.rest| < |tokens|)
    decreases |tokens|, 0
  {
    if tokens == [] then Parsed(None, [])
    else
      match tokens[0]
      case TermToken(t) => Parsed(Some(Leaf(t)), tokens[1..])
      case Open =>
        var inner := ParseOr(tokens[1..]);
        Parsed(inner.ast, if inner.rest != [] && inner.rest[0].Close? then inner.rest[1..] else inner.rest)
      case _ => Parsed(None, tokens[1..])
  }

  /** `buildAst`: tokens after an unmatched closing parenthesis are ignored. */
  function BuildAst(tokens: seq<Token>): Option<Ast> {
    ParseOr(tokens).ast
  }

  lemma OrItemsStep(tokens: seq<Token>)
    requires tokens != [] && tokens[0].OrToken?
    ensures var right := ParseAnd(tokens[1..]);
      OrItems(tokens) == (Kept(right.ast) + OrItems(right.rest).0, OrItems(right.rest).1)
  {
  }

  lemma OrItemsEnd(tokens: seq<Token>)
    requires tokens == [] || !tokens[0].OrToken?
    ensures OrItems(tokens) == ([], tokens)
  {
  }

  lemma AndItemsStep(tokens: seq<Token>)
    requires StartsAtom(tokens)
    ensures var atom := ParseAtom(tokens);
      AndItems(tokens) == (Kept(atom.ast) + AndItems(atom.rest).0, AndItems(atom.rest).1)
  {
  }

  // ---- The parser object: a position moving over the tokens ----

  class Parser {
    const tokens: seq<Token>
    var position: nat

    constructor (tokens: seq<Token>)
      ensures this.tokens == tokens && position == 0
    {
      this.tokens := tokens;
      position := 0;
    }

    ghost function Left(): seq<Token>
      requires position <= |tokens|
      reads this`position
    {
      tokens[position..]
    }

    method RunOr() returns (ast: Option<Ast>)
      requires position <= |tokens|
      modifies this`position
      ensures old(position) <= position <= |tokens|
      ensures Parsed(ast, Left()) == ParseOr(old(Left()))
      decreases |tokens| - position, 3
    {
      var left := RunAnd();
      var more := RunOrItems();
      ast := Collected(Kept(left) + more, true);
    }

    method RunOrItems() returns (items: seq<Ast>)
      requires position <= |tokens|
      modifies this`position
      ensures old(position) <= position <= |tokens|
      ensures (items, Left()) == OrItems(old(Left()))
      decreases |tokens| - position, 2
    {
      items := [];
      ghost var all := OrItems(Left());
      assert items + all.0 == all.0;
      while position < |tokens|
        invariant old(position) <= position <= |tokens|
        invariant items + OrItems(Left()).0 == all.0 && OrItems(Left()).1 == all.1
        decreases |tokens| - position
      {
        if !tokens[position].OrToken? { break; }
        assert Left()[1..] == tokens[position + 1..];
        ghost var here := Left();
        OrItemsStep(here);
        position := position + 1;
        var right := RunAnd();
        Associates(items, Kept(right), OrItems(Left()).0);
        items := items + Kept(right);
      }
      OrItemsEnd(Left());
      assert items + [] == items;
    }

    method RunAnd() returns (ast: Option<Ast>)
      requires position <= |tokens|
      modifies this`position
      ensures old(position) <= position <= |tokens|
      ensures Parsed(ast, Left()) == ParseAnd(old(Left()))
      decreases |tokens| - position, 1
    {
      var items := [];
      ghost var all := AndItems(Left());
      assert items + all.0 == all.0;
      while position < |tokens|
        invariant old(position) <= position <= |tokens|
        invariant items + AndItems(Left()).0 == all.0 && AndItems(Left()).1 == all.1
        decreases |tokens| - position
      {
        if tokens[position].OrToken? || tokens[position].Close? { break; }
        ghost var here := Left();
        AndItemsStep(here);
        var atom := RunAtom();
        Associates(items, Kept(atom), AndItems(Left()).0);
        items := items + Kept(atom);
      }
      assert AndItems(Left()) == ([], Left());
      assert items + [] == items;
      ast := Collected(items, false);
    }

    method RunAtom() returns (ast: Option<Ast>)
      requires position <= |tokens|
      modifies this`position
      ensures old(position) <= position <= |tokens| && (old(position) < |tokens| ==> old(position) < position)
      ensures Parsed(ast, Left()) == ParseAtom(old(Left()))
      decreases |tokens| - position, 0
    {
      if position == |tokens| { return None; }
      assert Left()[1..] == tokens[position + 1..];
      var token := tokens[position];
      position := position + 1;
      match token
      case TermToken(t) => ast := Some(Leaf(t));
      case Open =>
        ast := RunOr();
        if position < |tokens| && tokens[position].Close? {
          assert Left()[1..] == tokens[position + 1..];
          position := position + 1;
        }
      case _ => ast := None;
    }
  }

  method RunBuildAst(tokens: seq<Token>) returns (ast: Option<Ast>)
    ensures ast == BuildAst(tokens)
  {
    var parser := new Parser(tokens);
    ast := parser.RunOr();
    assert tokens[0..] == tokens;
  }

  // ---- Printing a tree with only the parentheses that precedence needs ----

  /** As an operand of nothing, or inside parentheses. */
  function PrintOr(ast: Ast): seq<Token>
    decreases ast, 3
  {
    if ast.Or? && ast.children != [] then PrintAnd(ast.children[0]) + PrintOrs(ast.children[1..]) else PrintAnd(ast)
  }

  function PrintOrs(children: seq<Ast>): seq<Token>
    decreases children, 0
  {
    if children == [] then [] else [OrToken] + PrintAnd(children[0]) + PrintOrs(children[1..])
  }

  /** As an operand of OR: AND binds tighter and needs no parentheses. */
  function PrintAnd(ast: Ast): seq<Token>
    decreases ast, 2
  {
    if ast.And? then PrintAtoms(ast.children) else PrintAtom(ast)
  }

  function PrintAtoms(children: seq<Ast>): seq<Token>
    decreases children, 0
  {
    if children == [] then [] else PrintAtom(children[0]) + PrintAtoms(children[1..])
  }

  /** As an operand of AND. */
  function PrintAtom(ast: Ast): seq<Token>
    decreases ast, 1
  {
    match ast
    case Leaf(t) => [TermToken(t)]
    case Or(cs) => [Open] + (if cs != [] then PrintAnd(cs[0]) + PrintOrs(cs[1..]) else []) + [Close]
    case And(cs) => [Open] + PrintAtoms(cs) + [Close]
  }

  /** Every connective joins at least two trees. */
  predicate Normal(ast: Ast)
    decreases ast, 1
  {
    match ast
    case Leaf(_) => true
    case Or(cs) => |cs| >= 2 && AllNormal(cs)
    case And(cs) => |cs| >= 2 && AllNormal(cs)
  }

  predicate AllNormal(asts: seq<Ast>)
    decreases asts, 0
  {
    asts != [] ==> Normal(asts[0]) && AllNormal(asts[1..])
  }

  predicate EndsOr(rest: seq<Token>) {
    rest == [] || rest[0].Close?
  }

  lemma {:induction false} AtomReadsBack(ast: Ast, rest: seq<Token>)
    requires Normal(ast)
    ensures StartsAtom(PrintAtom(ast) + rest)
    ensures ParseAtom(PrintAtom(ast) + rest) == Parsed(Some(ast), rest)
    decreases ast, 1
  {
    var tokens := PrintAtom(ast) + rest;
    if ast.Leaf? {
      assert tokens[1..] == rest;
    } else {
      assert tokens[1..] == PrintOr(ast) + ([Close] + rest);
      InnerReadsBack(ast, [Close] + rest);
      assert ([Close] + rest)[1..] == rest;
    }
  }

  /** A connective, printed inside parentheses. */
  lemma {:induction false} InnerReadsBack(ast: Ast, rest: seq<Token>)
    requires Normal(ast) && !ast.Leaf? && EndsOr(rest)
    ensures ParseOr(PrintOr(ast) + rest) == Parsed(Some(ast), rest)
    decreases ast, 0
  {
    match ast
    case And(cs) =>
      AtomsReadBack(cs, rest);
    case Or(cs) =>
      var tail := PrintOrs(cs[1..]) + rest;
      assert PrintOr(ast) + rest == PrintAnd(cs[0]) + tail;
      AndReadsBack(cs[0], tail);
      OrsReadBack(cs[1..], rest);
      assert [cs[0]] + cs[1..] == cs;
  }

  lemma {:induction false} AndReadsBack(ast: Ast, rest: seq<Token>)
    requires Normal(ast) && !StartsAtom(rest)
    ensures ParseAnd(PrintAnd(ast) + rest) == Parsed(Some(ast), rest)
    decreases ast, 2
  {
    if ast.And? {
      AtomsReadBack(ast.children, rest);
    } else {
      AtomReadsBack(ast, rest);
      assert AndItems(PrintAtom(ast) + rest) == ([ast] + AndItems(rest).0, rest);
    }
  }

  lemma {:induction false} AtomsReadBack(cs: seq<Ast>, rest: seq<Token>)
    requires AllNormal(cs) && !StartsAtom(rest)
    ensures AndItems(PrintAtoms(cs) + rest) == (cs, rest)
    decreases cs, 0
  {
    if cs == [] {
      assert PrintAtoms(cs) + rest == rest;
    } else {
      var tail := PrintAtoms(cs[1..]) + rest;
      assert PrintAtoms(cs) + rest == PrintAtom(cs[0]) + tail;
      AtomReadsBack(cs[0], tail);
      AtomsReadBack(cs[1..], rest);
      assert [cs[0]] + cs[1..] == cs;
    }
  }

  lemma OrTail(a: seq<Token>, b: seq<Token>, c: seq<Token>)
    ensures var tokens := [OrToken] + a + b + c; tokens[0] == OrToken && tokens[1..] == a + (b + c)
  {
  }

  lemma {:induction false} OrsReadBack(cs: seq<Ast>, rest: seq<Token>)
    requires AllNormal(cs) && EndsOr(rest)
    ensures OrItems(PrintOrs(cs) + rest) == (cs, rest)
    decreases cs, 0
  {
    if cs == [] {
      assert PrintOrs(cs) + rest == rest;
    } else {
      var tail := PrintOrs(cs[1..]) + rest;
      var tokens := PrintOrs(cs) + rest;
      OrTail(PrintAnd(cs[0]), PrintOrs(cs[1..]), rest);
      assert tokens == [OrToken] + PrintAnd(cs[0]) + PrintOrs(cs[1..]) + rest;
      AndReadsBack(cs[0], tail);
      OrsReadBack(cs[1..], rest);
      OrItemsStep(tokens);
      assert [cs[0]] + cs[1..] == cs;
    }
  }

  lemma WholeReadsBack(ast: Ast, rest: seq<Token>)
    requires Normal(ast) && EndsOr(rest)
    ensures ParseOr(PrintOr(ast) + rest) == Parsed(Some(ast), rest)
  {
    if ast.Leaf? {
      AndReadsBack(ast, rest);
      assert PrintAnd(ast) == PrintOr(ast) && OrItems(rest) == ([], rest);
      assert [ast] + [] == [ast];
    } else {
      InnerReadsBack(ast, rest);
    }
  }

  lemma OneAtom(tokens: seq<Token>, ast: Option<Ast>)
    requires StartsAtom(tokens) && ParseAtom(tokens) == Parsed(ast, [])
    ensures BuildAst(tokens) == ast
  {
    AndItemsStep(tokens);
    assert AndItems([]) == ([], []) && OrItems([]) == ([], []);
    assert Kept(ast) + [] == Kept(ast);
    assert ParseAnd(tokens) == Parsed(ast, []);
  }

  /** Malformed text: what follows a closing parenthesis too many is ignored, */
  lemma StrayCloseEnds(ast: Ast, rest: seq<Token>)
    requires Normal(ast)
    ensures BuildAst(PrintOr(ast) + ([Close] + rest)) == Some(ast)
  {
    WholeReadsBack(ast, [Close] + rest);
  }

  /** parentheses around the whole change nothing, and the closing one may be missing, */
  lemma GroupReads(ast: Ast, closing: seq<Token>)
    requires Normal(ast) && (closing == [] || closing == [Close])
    ensures BuildAst([Open] + (PrintOr(ast) + closing)) == Some(ast)
  {
    var inside := PrintOr(ast) + closing;
    var tokens := [Open] + inside;
    WholeReadsBack(ast, closing);
    assert tokens[1..] == inside;
    OneAtom(tokens, Some(ast));
  }

  /** no tokens, and nothing in parentheses, are no tree, */
  lemma NothingInside()
    ensures BuildAst([]) == None && BuildAst([Open, Close]) == None
  {
    assert AndItems([]) == ([], []) && OrItems([]) == ([], []);
    var tokens := [Open, Close];
    assert tokens[1..] == [Close];
    assert AndItems([Close]) == ([], [Close]) && OrItems([Close]) == ([], [Close]);
    assert ParseOr([Close]) == Parsed(None, [Close]);
    OneAtom(tokens, None);
  }

  /** and an OR in front changes nothing. */
  lemma OrInFront(ast: Ast)
    requires Normal(ast)
    ensures BuildAst([OrToken] + PrintOr(ast)) == Some(ast)
  {
    var tokens := [OrToken] + PrintOr(ast);
    var cs := if ast.Or? then ast.children else [ast];
    if ast.Or? {
      Associates([OrToken], PrintAnd(cs[0]), PrintOrs(cs[1..]));
    } else {
      assert cs[1..] == [] && PrintOrs(cs[1..]) == [];
      assert [OrToken] + PrintAnd(ast) + [] == [OrToken] + PrintAnd(ast);
    }
    assert tokens == PrintOrs(cs) && PrintOrs(cs) + [] == tokens;
    assert AllNormal(cs) by { assert cs[1..] == [] || ast.Or?; }
    OrsReadBack(cs, []);
    assert AndItems(tokens) == ([], tokens) && ParseAnd(tokens) == Parsed(None, tokens);
    assert Kept(None) + cs == cs;
    assert Collected(cs, true) == Some(ast);
  }

  /** For every normal tree, parsing its print gives the tree back: OR is looser than AND, and no more
      parentheses are needed than the printer writes. */
  lemma BuildUndoesPrint(ast: Ast)
    requires Normal(ast)
    ensures BuildAst(PrintOr(ast)) == Some(ast)
  {
    assert PrintOr(ast) + [] == PrintOr(ast);
    WholeReadsBack(ast, []);
  }

  lemma {:induction false} AllNormalConcat(a: seq<Ast>, b: seq<Ast>)
    requires AllNormal(a) && AllNormal(b)
    ensures AllNormal(a + b)
  {
    if a == [] {
      assert a + b == b;
    } else {
      assert (a + b)[1..] == a[1..] + b;
      AllNormalConcat(a[1..], b);
    }
  }

  lemma CollectedIsNormal(items: seq<Ast>, disjunction: bool)
    requires AllNormal(items)
    ensures Collected(items, disjunction).Some? ==> Normal(Collected(items, disjunction).value)
  {
  }

  /** Whatever the tokens, also malformed ones, the tree built is normal. */
  lemma {:induction false} OrIsNormal(tokens: seq<Token>)
    ensures ParseOr(tokens).ast.Some? ==> Normal(ParseOr(tokens).ast.value)
    decreases |tokens|, 3
  {
    var left := ParseAnd(tokens);
    AndIsNormal(tokens);
    OrItemsAreNormal(left.rest);
    AllNormalConcat(Kept(left.ast), OrItems(left.rest).0);
    CollectedIsNormal(Kept(left.ast) + OrItems(left.rest).0, true);
  }

  lemma {:induction false} OrItemsAreNormal(tokens: seq<Token>)
    ensures AllNormal(OrItems(tokens).0)
    decreases |tokens|, 0
  {
    if tokens != [] && tokens[0].OrToken? {
      var right := ParseAnd(tokens[1..]);
      AndIsNormal(tokens[1..]);
      OrItemsAreNormal(right.rest);
      AllNormalConcat(Kept(right.ast), OrItems(right.rest).0);
    }
  }

  lemma {:induction false} AndIsNormal(tokens: seq<Token>)
    ensures ParseAnd(tokens).ast.Some? ==> Normal(ParseAnd(tokens).ast.value)
    decreases |tokens|, 2
  {
    AndItemsAreNormal(tokens);
    CollectedIsNormal(AndItems(tokens).0, false);
  }

  lemma {:induction false} AndItemsAreNormal(tokens: seq<Token>)
    ensures AllNormal(AndItems(tokens).0)
    decreases |tokens|, 1
  {
    if StartsAtom(tokens) {
      var atom := ParseAtom(tokens);
      if tokens[0].Open? {
        OrIsNormal(tokens[1..]);
      }
      AndItemsAreNormal(atom.rest);
      AllNormalConcat(Kept(atom.ast), AndItems(atom.rest).0);
    }
  }

  /** So the trees the parser builds are exactly the normal ones, and printing one and parsing it again
      changes nothing. */
  lemma ReparseIsStable(tokens: seq<Token>)
    ensures BuildAst(tokens).Some? ==>
      Normal(BuildAst(tokens).value) && BuildAst(PrintOr(BuildAst(tokens).value)) == BuildAst(tokens)
  {
    OrIsNormal(tokens);
    if BuildAst(tokens).Some? {
      BuildUndoesPrint(BuildAst(tokens).value);
    }
  }
}
