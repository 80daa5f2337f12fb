/** What and/or chains mean: the parser's left-nested tree against a reading of the tokens as
    or-separated groups of and-separated atoms. */
module Expressions {
  import opened Outcomes
  import opened PolicyAst
  import opened Tokens
  import opened Parsing

  /** The atoms of one and-group, in source order. */
  function AndGroup(toks: seq<Token>, i: nat): (r: Result<(seq<Expr>, nat)>)
    ensures r.Ok? ==> i < r.value.1 < |toks| && r.value.0 != []
    decreases |toks| - i
  {
    var (atom, k) :- Cmp(toks, i);
    var t :- TokenAt(toks, k);
    if t.text == "and" then
      var (rest, m) :- AndGroup(toks, k + 1);
      Ok(([atom] + rest, m))
    else
      Ok(([atom], k))
  }

  /** The and-groups of an expression, in source order. */
  function Groups(toks: seq<Token>, i: nat): (r: Result<(seq<seq<Expr>>, nat)>)
    ensures r.Ok? ==> i < r.value.1 < |toks| && r.value.0 != []
    ensures r.Ok? ==> forall k | 0 <= k < |r.value.0| :: r.value.0[k] != []
    decreases |toks| - i
  {
    var (group, k) :- AndGroup(toks, i);
    if toks[k].text == "or" then
      var (rest, m) :- Groups(toks, k + 1);
      Ok(([group] + rest, m))
    else
      Ok(([group], k))
  }

  /** ((first and a1) and a2) and … */
  function NestAnd(first: Expr, rest: seq<Expr>): Expr
    decreases |rest|
  {
    if rest == [] then first else NestAnd(And(first, rest[0]), rest[1..])
  }

  /** ((first or g1) or g2) or …, each group nested in itself. */
  function NestOr(first: Expr, rest: seq<seq<Expr>>): Expr
    requires forall k | 0 <= k < |rest| :: rest[k] != []
    decreases |rest|
  {
    if rest == [] then first else NestOr(Or(first, NestAnd(rest[0][0], rest[0][1..])), rest[1..])
  }

  /** The truth of an expression when `atom` gives the truth of everything but and/or nodes. */
  predicate Eval(e: Expr, atom: Expr -> bool) {
    match e
    case And(l, r) => Eval(l, atom) && Eval(r, atom)
    case Or(l, r) => Eval(l, atom) || Eval(r, atom)
    case _ => atom(e)
  }

  lemma {:induction false} OperandIsAtom(toks: seq<Token>, i: nat)
    requires Operand(toks, i).Ok?
    ensures !Operand(toks, i).value.0.And? && !Operand(toks, i).value.0.Or?
  {
  }

  lemma {:induction false} CmpIsAtom(toks: seq<Token>, i: nat)
    requires Cmp(toks, i).Ok?
    ensures !Cmp(toks, i).value.0.And? && !Cmp(toks, i).value.0.Or?
  {
    hide Operand;
    OperandIsAtom(toks, i);
  }

  /** The and-loop started after `left` collects the group that starts after the next "and". */
  lemma {:induction false} AndRestNests(toks: seq<Token>, i: nat, left: Expr)
    requires i < |toks| && toks[i].text == "and"
    ensures match AndGroup(toks, i + 1)
            case Ok((g, k)) => AndRest(toks, i, left) == Ok((NestAnd(left, g), k))
            case Err => AndRest(toks, i, left) == Err
            case Crash => AndRest(toks, i, left) == Crash
    decreases |toks| - i
  {
    hide Cmp;
    if Cmp(toks, i + 1).Ok? {
      var (right, k) := Cmp(toks, i + 1).value;
      if k < |toks| && toks[k].text == "and" {
        AndRestNests(toks, k, And(left, right));
        if AndGroup(toks, k + 1).Ok? {
          assert ([right] + AndGroup(toks, k + 1).value.0)[1..] == AndGroup(toks, k + 1).value.0;
        }
      } else {
        assert [right][1..] == [];
      }
    }
  }

  lemma {:induction false} AndChainNests(toks: seq<Token>, i: nat)
    ensures match AndGroup(toks, i)
            case Ok((g, k)) => AndChain(toks, i) == Ok((NestAnd(g[0], g[1..]), k))
            case Err => AndChain(toks, i) == Err
            case Crash => AndChain(toks, i) == Crash
  {
    hide Cmp;
    if Cmp(toks, i).Ok? {
      var (left, k) := Cmp(toks, i).value;
      if k < |toks| && toks[k].text == "and" {
        AndRestNests(toks, k, left);
        if AndGroup(toks, k + 1).Ok? {
          assert ([left] + AndGroup(toks, k + 1).value.0)[1..] == AndGroup(toks, k + 1).value.0;
        }
      } else {
        assert [left][1..] == [];
      }
    }
  }

  /** What the or-loop makes of the groups behind the next "or". */
  ghost predicate OrNested(whole: Result<(Expr, nat)>, left: Expr, groups: Result<(seq<seq<Expr>>, nat)>)
    requires NoEmptyGroup(groups)
  {
    match groups
    case Ok((gs, k)) => whole == Ok((NestOr(left, gs), k))
    case Err => whole == Err
    case Crash => whole == Crash
  }

  function Prepend(g: seq<Expr>, rest: Result<(seq<seq<Expr>>, nat)>): Result<(seq<seq<Expr>>, nat)> {
    match rest
    case Ok((gs, k)) => Ok(([g] + gs, k))
    case Err => Err
    case Crash => Crash
  }

  predicate NoEmptyGroup(groups: Result<(seq<seq<Expr>>, nat)>) {
    groups.Ok? ==> forall k | 0 <= k < |groups.value.0| :: groups.value.0[k] != []
  }

  lemma {:induction false} OrNestedStep(whole: Result<(Expr, nat)>, left: Expr, g: seq<Expr>,
                                        rest: Result<(seq<seq<Expr>>, nat)>)
    requires g != [] && NoEmptyGroup(rest) && OrNested(whole, Or(left, NestAnd(g[0], g[1..])), rest)
    ensures NoEmptyGroup(Prepend(g, rest)) && OrNested(whole, left, Prepend(g, rest))
  {
    hide NestAnd;
    if rest.Ok? {
      assert ([g] + rest.value.0)[1..] == rest.value.0;
    }
  }

  lemma {:induction false} GroupsTurn(toks: seq<Token>, i: nat)
    ensures match AndGroup(toks, i)
            case Ok((g, k)) =>
              Groups(toks, i) == Prepend(g, if toks[k].text == "or" then Groups(toks, k + 1) else Ok(([], k)))
            case Err => Groups(toks, i) == Err
            case Crash => Groups(toks, i) == Crash
  {
    hide AndGroup;
    if AndGroup(toks, i).Ok? {
      assert [AndGroup(toks, i).value.0] + [] == [AndGroup(toks, i).value.0];
    }
  }

  lemma {:induction false} NothingNested(left: Expr, k: nat)
    ensures OrNested(Ok((left, k)), left, Ok(([], k))) && OrNested(Err, left, Err) && OrNested(Crash, left, Crash)
  {
  }

  lemma {:induction false} OrRestTurn(toks: seq<Token>, i: nat, left: Expr)
    requires i < |toks|
    ensures toks[i].text != "or" ==> OrRest(toks, i, left) == Ok((left, i))
    ensures toks[i].text == "or" ==>
              match AndChain(toks, i + 1)
              case Ok((right, k)) => OrRest(toks, i, left) == OrRest(toks, k, Or(left, right))
              case Err => OrRest(toks, i, left) == Err
              case Crash => OrRest(toks, i, left) == Crash
  {
    hide AndChain;
  }

  lemma {:induction false} OrRestNests(toks: seq<Token>, i: nat, left: Expr)
    requires i < |toks| && toks[i].text == "or"
    ensures OrNested(OrRest(toks, i, left), left, Groups(toks, i + 1))
    decreases |toks| - i
  {
    hide AndGroup, AndChain, NestAnd, OrRest, Groups, OrNested, Prepend;
    AndChainNests(toks, i + 1);
    OrRestTurn(toks, i, left);
    GroupsTurn(toks, i + 1);
    NothingNested(left, 0);
    if AndGroup(toks, i + 1).Ok? {
      var (g, k) := AndGroup(toks, i + 1).value;
      var right := NestAnd(g[0], g[1..]);
      OrRestTurn(toks, k, Or(left, right));
      if toks[k].text == "or" {
        OrRestNests(toks, k, Or(left, right));
        OrNestedStep(OrRest(toks, i, left), left, g, Groups(toks, k + 1));
      } else {
        NothingNested(Or(left, right), k);
        OrNestedStep(OrRest(toks, i, left), left, g, Ok(([], k)));
      }
    }
  }

  /** The or-parser fails exactly when the grouping fails, and otherwise returns the left-nested
      tree of the groups, "and" binding tighter, and stops at the same token. */
  lemma {:induction false} OrChainNests(toks: seq<Token>, i: nat)
    ensures match Groups(toks, i)
            case Ok((gs, k)) => OrChain(toks, i) == Ok((NestOr(NestAnd(gs[0][0], gs[0][1..]), gs[1..]), k))
            case Err => OrChain(toks, i) == Err
            case Crash => OrChain(toks, i) == Crash
  {
    hide AndGroup, AndChain, NestAnd;
    AndChainNests(toks, i);
    if AndGroup(toks, i).Ok? {
      var (g, k) := AndGroup(toks, i).value;
      if k < |toks| && toks[k].text == "or" {
        OrRestNests(toks, k, NestAnd(g[0], g[1..]));
        if Groups(toks, k + 1).Ok? {
          assert ([g] + Groups(toks, k + 1).value.0)[1..] == Groups(toks, k + 1).value.0;
        }
      } else {
        assert [g][1..] == [];
      }
    }
  }

  // Truth

  predicate AllTrue(g: seq<Expr>, atom: Expr -> bool) {
    forall a | a in g :: atom(a)
  }

  predicate Atoms(g: seq<Expr>) {
    forall a | a in g :: !a.And? && !a.Or?
  }

  lemma {:induction false} NestAndTruth(first: Expr, rest: seq<Expr>, atom: Expr -> bool)
    requires Atoms(rest)
    ensures Eval(NestAnd(first, rest), atom) <==> Eval(first, atom) && AllTrue(rest, atom)
    decreases |rest|
  {
    if rest != [] {
      NestAndTruth(And(first, rest[0]), rest[1..], atom);
      assert rest == [rest[0]] + rest[1..];
      assert rest[0] in rest;
    }
  }

  lemma {:induction false} GroupTruth(g: seq<Expr>, atom: Expr -> bool)
    requires g != [] && Atoms(g)
    ensures Eval(NestAnd(g[0], g[1..]), atom) <==> AllTrue(g, atom)
  {
    assert g == [g[0]] + g[1..];
    NestAndTruth(g[0], g[1..], atom);
    assert g[0] in g;
  }

  lemma {:induction false} NestOrTruth(first: Expr, rest: seq<seq<Expr>>, atom: Expr -> bool)
    requires forall k | 0 <= k < |rest| :: rest[k] != [] && Atoms(rest[k])
    ensures Eval(NestOr(first, rest), atom) <==> Eval(first, atom) || exists g :: g in rest && AllTrue(g, atom)
    decreases |rest|
  {
    if rest != [] {
      var g := rest[0];
      GroupTruth(g, atom);
      NestOrTruth(Or(first, NestAnd(g[0], g[1..])), rest[1..], atom);
      assert forall h :: h in rest <==> h == g || h in rest[1..];
    }
  }

  lemma {:induction false} AndGroupAtoms(toks: seq<Token>, i: nat)
    requires AndGroup(toks, i).Ok?
    ensures Atoms(AndGroup(toks, i).value.0)
    decreases |toks| - i
  {
    hide Cmp;
    CmpIsAtom(toks, i);
    var k := Cmp(toks, i).value.1;
    if toks[k].text == "and" {
      AndGroupAtoms(toks, k + 1);
    }
  }

  lemma {:induction false} GroupsAtoms(toks: seq<Token>, i: nat)
    requires Groups(toks, i).Ok?
    ensures forall k | 0 <= k < |Groups(toks, i).value.0| :: Atoms(Groups(toks, i).value.0[k])
    decreases |toks| - i
  {
    hide AndGroup, Atoms;
    AndGroupAtoms(toks, i);
    var k := AndGroup(toks, i).value.1;
    if toks[k].text == "or" {
      GroupsAtoms(toks, k + 1);
    }
  }

  /** For every truth valuation of the atoms, a parsed expression is true exactly when all atoms
      of one of its or-separated groups are. */
  lemma {:induction false} ExpressionMeaning(toks: seq<Token>, i: nat, atom: Expr -> bool)
    requires OrChain(toks, i).Ok?
    ensures Groups(toks, i).Ok? && Groups(toks, i).value.1 == OrChain(toks, i).value.1
    ensures Eval(OrChain(toks, i).value.0, atom) <==>
            exists g :: g in Groups(toks, i).value.0 && AllTrue(g, atom)
  {
    hide OrChain, Groups, NestAnd, NestOr, Eval, Atoms, AllTrue;
    OrChainNests(toks, i);
    GroupsAtoms(toks, i);
    var gs := Groups(toks, i).value.0;
    assert gs == [gs[0]] + gs[1..];
    assert gs[0] in gs;
    GroupTruth(gs[0], atom);
    NestOrTruth(NestAnd(gs[0][0], gs[0][1..]), gs[1..], atom);
    assert forall h :: h in gs <==> h == gs[0] || h in gs[1..];
  }
}
