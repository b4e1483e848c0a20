/** The cursor shape a box shows while the pointer hovers over it,
    chosen from the four edge-proximity flags. */
module Cursors {

  /** Which edges of the box the pointer is close to. */
  datatype EdgeFlags = EdgeFlags(left: bool, right: bool, top: bool, bottom: bool)

  const NoFlags := EdgeFlags(false, false, false, false)

  predicate AnyFlag(f: EdgeFlags) { f.left || f.right || f.top || f.bottom }

  /** Corner conditions: top-left or bottom-right is the forward diagonal
      (drawn "\"), top-right or bottom-left the back diagonal ("/"). */
  predicate ForwardDiagonal(f: EdgeFlags) { (f.top && f.left) || (f.bottom && f.right) }
  predicate BackDiagonal(f: EdgeFlags) { (f.top && f.right) || (f.bottom && f.left) }

  datatype Cursor = ArrowCursor | SizeVerCursor | SizeHorCursor | SizeBDiagCursor | SizeFDiagCursor

  /** The cursor for a set of flags. The hover handler assigns the cursor
      rule by rule, so a later rule overrides an earlier one: the forward
      diagonal wins over the back diagonal, both diagonals over the
      horizontal cursor, and that over the vertical one. */
  function CursorFor(f: EdgeFlags): (c: Cursor)
    ensures c == ArrowCursor <==> !AnyFlag(f)
    ensures c == SizeFDiagCursor <==> ForwardDiagonal(f)
    ensures c == SizeBDiagCursor <==> BackDiagonal(f) && !ForwardDiagonal(f)
    ensures c == SizeHorCursor <==> (f.left || f.right) && !f.top && !f.bottom
    ensures c == SizeVerCursor <==> (f.top || f.bottom) && !f.left && !f.right
  {
    if ForwardDiagonal(f) then SizeFDiagCursor
    else if BackDiagonal(f) then SizeBDiagCursor
    else if f.left || f.right then SizeHorCursor
    else if f.top || f.bottom then SizeVerCursor
    else ArrowCursor
  }

  /** A reference reading of the hover handler's assignments: a list of
      (condition, cursor) rules applied in order, each matching rule
      overwriting the cursor chosen so far. */
  datatype Condition = TopOrBottom | LeftOrRight | BackDiag | ForwardDiag
  datatype Rule = Rule(when: Condition, cursor: Cursor)

  predicate Holds(c: Condition, f: EdgeFlags)
  {
    match c
    case TopOrBottom => f.top || f.bottom
    case LeftOrRight => f.left || f.right
    case BackDiag => BackDiagonal(f)
    case ForwardDiag => ForwardDiagonal(f)
  }

  /** The rules in the order the handler checks them. */
  const CursorRules: seq<Rule> := [
    Rule(TopOrBottom, SizeVerCursor),
    Rule(LeftOrRight, SizeHorCursor),
    Rule(BackDiag, SizeBDiagCursor),
    Rule(ForwardDiag, SizeFDiagCursor)
  ]

  /** Runs the assignments: start from `current` and let every matching rule overwrite it. */
  function ApplyRules(rules: seq<Rule>, f: EdgeFlags, current: Cursor): Cursor
    decreases |rules|
  {
    if rules == [] then current
    else ApplyRules(rules[1..], f, if Holds(rules[0].when, f) then rules[0].cursor else current)
  }

  /** When no rule matches, the starting cursor is kept. */
  lemma {:induction false} ApplyRulesNoneMatch(rules: seq<Rule>, f: EdgeFlags, current: Cursor)
    requires forall i :: 0 <= i < |rules| ==> !Holds(rules[i].when, f)
    ensures ApplyRules(rules, f, current) == current
    decreases |rules|
  {
    if rules != [] {
      assert forall i :: 0 <= i < |rules[1..]| ==> rules[1..][i] == rules[i + 1];
      ApplyRulesNoneMatch(rules[1..], f, current);
    }
  }

  /** Last matching rule wins: when rule k matches and no later rule does,
      the result is rule k's cursor, whatever the earlier rules say. */
  lemma {:induction false} ApplyRulesLastMatchWins(rules: seq<Rule>, f: EdgeFlags, current: Cursor, k: nat)
    requires k < |rules| && Holds(rules[k].when, f)
    requires forall j :: k < j < |rules| ==> !Holds(rules[j].when, f)
    ensures ApplyRules(rules, f, current) == rules[k].cursor
    decreases |rules|
  {
    var next := if Holds(rules[0].when, f) then rules[0].cursor else current;
    assert forall i :: 0 <= i < |rules[1..]| ==> rules[1..][i] == rules[i + 1];
    if k == 0 {
      ApplyRulesNoneMatch(rules[1..], f, next);
    } else {
      ApplyRulesLastMatchWins(rules[1..], f, next, k - 1);
    }
  }

  /** CursorFor is exactly the rule list run from the arrow cursor. */
  lemma CursorForFollowsRules(f: EdgeFlags)
    ensures CursorFor(f) == ApplyRules(CursorRules, f, ArrowCursor)
  {
  }

  /** When both diagonal conditions hold (all four flags, for one), the
      forward diagonal, checked last, wins. */
  lemma BothDiagonalsGiveForward(f: EdgeFlags)
    requires BackDiagonal(f) && ForwardDiagonal(f)
    ensures CursorFor(f) == SizeFDiagCursor
    ensures ApplyRules(CursorRules, f, ArrowCursor) == SizeFDiagCursor
  {
  }
}
