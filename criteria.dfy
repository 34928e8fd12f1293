/** The case-classification criteria tree and its evaluation.

    A criterion is either a leaf predicate, which this model treats as opaque
    (its truth for the case at hand is given by `holds`), or an "X of" combinator
    that is true when at least `requiredAmount` of its children are true.
    The three combinator classes of ClassificationXOfCriteriaDto (plain, bulleted
    sub-criteria and compact one-of) evaluate identically and differ only in their
    rendering, so they are one constructor with a rendering `Mode`. */
module Criteria {

  datatype Mode = Default | Bulleted | Compact

  datatype Crit =
    | Leaf(id: nat)
    | XOf(requiredAmount: int, kids: seq<Crit>, mode: Mode)

  /** `new ClassificationXOfCriteriaDto(requiredAmount, criteria...)` */
  function XOfCriteria(requiredAmount: int, kids: seq<Crit>): (c: Crit)
    ensures c.XOf? && c.requiredAmount == requiredAmount && c.kids == kids && c.mode == Default
  {
    XOf(requiredAmount, kids, Default)
  }

  /** `new ClassificationXOfSubCriteriaDto(requiredAmount, criteria...)` */
  function XOfSubCriteria(requiredAmount: int, kids: seq<Crit>): (c: Crit)
    ensures c.XOf? && c.requiredAmount == requiredAmount && c.kids == kids && c.mode == Bulleted
  {
    XOf(requiredAmount, kids, Bulleted)
  }

  /** `new ClassificationOneOfCompactCriteriaDto(criteria...)`: the amount is fixed to one. */
  function OneOfCompactCriteria(kids: seq<Crit>): (c: Crit)
    ensures c.XOf? && c.requiredAmount == 1 && c.kids == kids && c.mode == Compact
  {
    XOf(1, kids, Compact)
  }

  /** The `ClassificationCompactCriteria` marker interface. */
  predicate IsCompact(c: Crit): (b: bool)
    ensures b <==> c.XOf? && c.mode == Compact
  {
    c.XOf? && c.mode == Compact
  }

  /** `getSubCriteria`: the children in their declared order; leaves have none. */
  function SubCriteria(c: Crit): (kids: seq<Crit>)
    ensures c.Leaf? ==> kids == []
    ensures c.XOf? ==> kids == c.kids
  {
    match c
    case Leaf(_) => []
    case XOf(_, kids, _) => kids
  }

  /** The number of true entries among the first `n`. */
  function CountTrue(rs: seq<bool>, n: nat): (k: nat)
    requires n <= |rs|
    ensures k <= n
  {
    if n == 0 then 0 else CountTrue(rs, n - 1) + (if rs[n - 1] then 1 else 0)
  }

  /** The count the loop must reach: the comparison `amount >= requiredAmount`
      is made only after an increment, so an amount below one behaves as one. */
  function Threshold(requiredAmount: int): (t: int)
    ensures t >= 1 && t >= requiredAmount
    ensures requiredAmount >= 1 ==> t == requiredAmount
    ensures requiredAmount < 1 ==> t == 1
  {
    if requiredAmount < 1 then 1 else requiredAmount
  }

  /** The truth of each child, in order. */
  function Results(kids: seq<Crit>, holds: nat -> bool): (rs: seq<bool>)
    ensures |rs| == |kids|
    ensures forall i :: 0 <= i < |kids| ==> rs[i] == Eval(kids[i], holds)
    decreases kids, 0
  {
    seq(|kids|, i requires 0 <= i < |kids| => Eval(kids[i], holds))
  }

  /** What a criterion means for a case: a leaf as given, a combinator true when
      enough of its children are true. */
  function Eval(c: Crit, holds: nat -> bool): (r: bool)
    ensures c.XOf? && r ==> |c.kids| >= Threshold(c.requiredAmount)
    decreases c, 1
  {
    match c
    case Leaf(id) => holds(id)
    case XOf(requiredAmount, kids, _) =>
      var rs := Results(kids, holds);
      CountTrue(rs, |rs|) >= Threshold(requiredAmount)
  }

  /** Counting more entries never gives less. */
  lemma {:induction false} CountMonotone(rs: seq<bool>, i: nat, j: nat)
    requires i <= j <= |rs|
    ensures CountTrue(rs, i) <= CountTrue(rs, j)
    decreases j - i
  {
    if i < j {
      CountMonotone(rs, i, j - 1);
    }
  }

  /** All of the first `n` entries are true exactly when all `n` are counted. */
  lemma {:induction false} CountAll(rs: seq<bool>, n: nat)
    requires n <= |rs|
    ensures CountTrue(rs, n) == n <==> forall i :: 0 <= i < n ==> rs[i]
  {
    if n > 0 {
      CountAll(rs, n - 1);
    }
  }

  /** Some of the first `n` entries is true exactly when the count is positive. */
  lemma {:induction false} CountSome(rs: seq<bool>, n: nat)
    requires n <= |rs|
    ensures CountTrue(rs, n) >= 1 <==> exists i :: 0 <= i < n && rs[i]
  {
    if n > 0 {
      CountSome(rs, n - 1);
      if CountTrue(rs, n - 1) >= 1 {
        var i :| 0 <= i < n - 1 && rs[i];
        assert 0 <= i < n && rs[i];
      }
    }
  }

  /** How many children the loop evaluates, scanning from position `i`, given their
      results `rs` and the count `t` to reach: up to and including the first child
      whose result brings the number of true results to `t`, or all of them. */
  function ReachFrom(rs: seq<bool>, t: int, i: nat): (k: nat)
    requires i <= |rs|
    ensures i <= k <= |rs|
    decreases |rs| - i
  {
    if i == |rs| then |rs|
    else if CountTrue(rs, i + 1) >= t then i + 1
    else ReachFrom(rs, t, i + 1)
  }

  function Reach(rs: seq<bool>, t: int): (k: nat)
    ensures k <= |rs|
  {
    ReachFrom(rs, t, 0)
  }

  /** The scan stops exactly at the first position where the count reaches `t`:
      the child there is true, the count there is `t`, and it was below `t` before;
      when the count never reaches `t`, every child is scanned. */
  lemma {:induction false} ReachFromIsFirst(rs: seq<bool>, t: int, i: nat)
    requires i <= |rs| && t >= 1 && CountTrue(rs, i) < t
    ensures var k := ReachFrom(rs, t, i);
      (CountTrue(rs, |rs|) >= t ==> i < k && rs[k - 1] && CountTrue(rs, k) == t && CountTrue(rs, k - 1) < t) &&
      (CountTrue(rs, |rs|) < t ==> k == |rs|)
    decreases |rs| - i
  {
    if i < |rs| {
      if CountTrue(rs, i + 1) >= t {
        CountMonotone(rs, i + 1, |rs|);
      } else {
        ReachFromIsFirst(rs, t, i + 1);
      }
    }
  }

  /** `Reach` is the least number of children whose results already make the
      combinator true, or all of them when it is false. */
  lemma ReachIsFirst(rs: seq<bool>, t: int)
    requires t >= 1
    ensures var k := Reach(rs, t);
      (CountTrue(rs, |rs|) >= t ==> 0 < k && rs[k - 1] && CountTrue(rs, k) == t && CountTrue(rs, k - 1) < t) &&
      (CountTrue(rs, |rs|) < t ==> k == |rs|)
  {
    ReachFromIsFirst(rs, t, 0);
  }

  /** The leaves asked about while evaluating `c`, in order: a leaf asks about
      itself; a combinator asks what its children ask, but only for the children
      the loop reaches before it returns. */
  function Trace(c: Crit, holds: nat -> bool): seq<nat>
    decreases c, 0
  {
    match c
    case Leaf(id) => [id]
    case XOf(requiredAmount, kids, _) =>
      Traces(kids, Reach(Results(kids, holds), Threshold(requiredAmount)), holds)
  }

  /** The leaves asked about while evaluating the first `n` children, in order. */
  function Traces(kids: seq<Crit>, n: nat, holds: nat -> bool): seq<nat>
    requires n <= |kids|
    decreases kids, n
  {
    if n == 0 then [] else Traces(kids, n - 1, holds) + Trace(kids[n - 1], holds)
  }

  /** The questions put to the case about its leaf criteria, in the order asked. */
  class Asked {
    var ids: seq<nat>

    constructor ()
      ensures ids == []
    {
      ids := [];
    }

    /** Asks whether leaf `id` holds for the case, and records that it was asked. */
    method Ask(id: nat, holds: nat -> bool) returns (b: bool)
      modifies this
      ensures b == holds(id)
      ensures ids == old(ids) + [id]
    {
      b := holds(id);
      ids := ids + [id];
    }
  }

  /** After child `i` has been evaluated, the log holds the questions of the first
      `i + 1` children. */
  lemma LogStep(asked: seq<nat>, kids: seq<Crit>, i: nat, holds: nat -> bool, ids: seq<nat>)
    requires i < |kids|
    requires ids == asked + Traces(kids, i, holds) + Trace(kids[i], holds)
    ensures ids == asked + Traces(kids, i + 1, holds)
  {
    assert asked + Traces(kids, i, holds) + Trace(kids[i], holds) == asked + (Traces(kids, i, holds) + Trace(kids[i], holds));
  }

  /** When child `i` is the one whose result first brings the count to `t`, the
      scan stops right after it. */
  lemma ReachAt(rs: seq<bool>, t: int, i: nat)
    requires i < |rs| && t >= 1 && CountTrue(rs, i) < t <= CountTrue(rs, i + 1)
    ensures Reach(rs, t) == i + 1
  {
    CountMonotone(rs, i + 1, |rs|);
    ReachIsFirst(rs, t);
    var k := Reach(rs, t);
    if k - 1 < i {
      CountMonotone(rs, k, i);
    } else if k - 1 > i {
      CountMonotone(rs, i + 1, k - 1);
    }
  }

  /** The loop returns true after child `i`. */
  lemma StopsAt(c: Crit, holds: nat -> bool, i: nat)
    requires c.XOf? && i < |c.kids|
    requires var rs := Results(c.kids, holds); var t := Threshold(c.requiredAmount);
      rs[i] && CountTrue(rs, i) < t <= CountTrue(rs, i) + 1
    ensures var rs := Results(c.kids, holds); var t := Threshold(c.requiredAmount);
      CountTrue(rs, |c.kids|) >= t && Eval(c, holds) &&
      i + 1 == Reach(rs, t) && Eval(c.kids[i], holds) &&
      CountTrue(rs, i + 1) == t && CountTrue(rs, i) < t
  {
    var rs := Results(c.kids, holds);
    var t := Threshold(c.requiredAmount);
    CountMonotone(rs, i + 1, |rs|);
    ReachAt(rs, t, i);
  }

  /** The loop ran through every child without reaching the threshold. */
  lemma NeverReached(c: Crit, holds: nat -> bool)
    requires c.XOf?
    requires var rs := Results(c.kids, holds); CountTrue(rs, |c.kids|) < Threshold(c.requiredAmount)
    ensures !Eval(c, holds) && |c.kids| == Reach(Results(c.kids, holds), Threshold(c.requiredAmount))
  {
    ReachIsFirst(Results(c.kids, holds), Threshold(c.requiredAmount));
  }

  /** `eval` of an X-of criterion, as ClassificationXOfCriteriaDto's loop runs it:
      children are evaluated in order, a counter goes up on each true one, and the
      loop returns as soon as the counter reaches `requiredAmount`.
      Every leaf question goes through `log`, so what was evaluated is observable:
      exactly the children up to the one whose result first brings the count to
      the threshold (all of them when the result is false), and nothing after it. */
  method EvalXOf(c: Crit, holds: nat -> bool, log: Asked) returns (r: bool, evaluated: nat)
    requires c.XOf?
    modifies log
    ensures r <==> CountTrue(Results(c.kids, holds), |c.kids|) >= Threshold(c.requiredAmount)
    ensures r == Eval(c, holds)
    ensures evaluated == Reach(Results(c.kids, holds), Threshold(c.requiredAmount))
    ensures log.ids == old(log.ids) + Traces(c.kids, evaluated, holds)
    ensures !r ==> evaluated == |c.kids|
    ensures r ==> 0 < evaluated && Eval(c.kids[evaluated - 1], holds)
    ensures r ==> CountTrue(Results(c.kids, holds), evaluated) == Threshold(c.requiredAmount)
    ensures r ==> CountTrue(Results(c.kids, holds), evaluated - 1) < Threshold(c.requiredAmount)
    decreases c, 2
  {
    var kids := c.kids;
    ghost var rs := Results(kids, holds);
    ghost var t := Threshold(c.requiredAmount);
    ghost var asked := log.ids;
    var amount := 0;
    var i := 0;
    while i < |kids|
      invariant 0 <= i <= |kids|
      invariant amount == CountTrue(rs, i)
      invariant amount < t
      invariant log.ids == asked + Traces(kids, i, holds)
    {
      var b := EvalCriteria(kids[i], holds, log);
      LogStep(asked, kids, i, holds, log.ids);
      assert b == rs[i];
      if b {
        amount := amount + 1;
        if amount >= c.requiredAmount {
          StopsAt(c, holds, i);
          return true, i + 1;
        }
      }
      i := i + 1;
    }
    NeverReached(c, holds);
    r, evaluated := false, |kids|;
  }

  /** `eval` of any criterion: a leaf is asked directly, a combinator runs its loop.
      The leaves asked are exactly those of `Trace`, in its order. */
  method EvalCriteria(c: Crit, holds: nat -> bool, log: Asked) returns (r: bool)
    modifies log
    ensures r == Eval(c, holds)
    ensures log.ids == old(log.ids) + Trace(c, holds)
    decreases c, 3
  {
    match c
    case Leaf(id) =>
      r := log.Ask(id, holds);
    case XOf(_, _, _) =>
      var evaluated;
      r, evaluated := EvalXOf(c, holds, log);
  }

  /** With as many required as there are children (and at least one child),
      the combinator is the conjunction of its children. */
  lemma AllRequiredIsAnd(c: Crit, holds: nat -> bool)
    requires c.XOf? && c.requiredAmount == |c.kids| && |c.kids| > 0
    ensures Eval(c, holds) <==> forall i :: 0 <= i < |c.kids| ==> Eval(c.kids[i], holds)
  {
    CountAll(Results(c.kids, holds), |c.kids|);
  }

  /** With one required (or fewer: the threshold is never below one), the
      combinator is the disjunction of its children. */
  lemma OneRequiredIsOr(c: Crit, holds: nat -> bool)
    requires c.XOf? && c.requiredAmount <= 1
    ensures Eval(c, holds) <==> exists i :: 0 <= i < |c.kids| && Eval(c.kids[i], holds)
  {
    var rs := Results(c.kids, holds);
    CountSome(rs, |rs|);
    if exists i :: 0 <= i < |c.kids| && Eval(c.kids[i], holds) {
      var i :| 0 <= i < |c.kids| && Eval(c.kids[i], holds);
      assert rs[i];
    }
  }

  /** More required than there are children, or no children at all: never true. */
  lemma UnreachableThresholdIsFalse(c: Crit, holds: nat -> bool)
    requires c.XOf? && (c.requiredAmount > |c.kids| || c.kids == [])
    ensures !Eval(c, holds)
  {
  }

  /** The three variants share one evaluation: only the rendering differs. */
  lemma VariantsEvaluateAlike(requiredAmount: int, kids: seq<Crit>, holds: nat -> bool)
    ensures Eval(XOfSubCriteria(requiredAmount, kids), holds) == Eval(XOfCriteria(requiredAmount, kids), holds)
    ensures Eval(OneOfCompactCriteria(kids), holds) == Eval(XOfCriteria(1, kids), holds)
    ensures IsCompact(OneOfCompactCriteria(kids))
    ensures !IsCompact(XOfCriteria(requiredAmount, kids)) && !IsCompact(XOfSubCriteria(requiredAmount, kids))
    ensures SubCriteria(XOfCriteria(requiredAmount, kids)) == kids
    ensures SubCriteria(XOfSubCriteria(requiredAmount, kids)) == kids
    ensures SubCriteria(OneOfCompactCriteria(kids)) == kids
  {
  }

  /** The compact one-of criterion is true exactly when some child is. */
  lemma CompactIsOr(kids: seq<Crit>, holds: nat -> bool)
    ensures Eval(OneOfCompactCriteria(kids), holds) <==> exists i :: 0 <= i < |kids| && Eval(kids[i], holds)
  {
    OneRequiredIsOr(OneOfCompactCriteria(kids), holds);
  }

  /** "Two of A, B, C": true when A and C hold but B does not, false when only A holds. */
  lemma TwoOfThreeScenario(holds: nat -> bool)
    ensures var c := XOfCriteria(2, [Leaf(0), Leaf(1), Leaf(2)]);
      (holds(0) && !holds(1) && holds(2) ==> Eval(c, holds)) &&
      (holds(0) && !holds(1) && !holds(2) ==> !Eval(c, holds))
  {
    var c := XOfCriteria(2, [Leaf(0), Leaf(1), Leaf(2)]);
    var rs := Results(c.kids, holds);
    assert rs == [holds(0), holds(1), holds(2)];
    assert CountTrue(rs, 2) == CountTrue(rs, 1) + (if holds(1) then 1 else 0);
    assert CountTrue(rs, 3) == CountTrue(rs, 2) + (if holds(2) then 1 else 0);
    assert Eval(c, holds) <==> CountTrue(rs, 3) >= 2;
  }

  /** A compact one-of nested under a "two of" counts as one child. */
  lemma NestedCompactScenario(holds: nat -> bool)
    ensures var c := XOfCriteria(2, [Leaf(0), OneOfCompactCriteria([Leaf(1), Leaf(2)])]);
      Eval(c, holds) <==> holds(0) && (holds(1) || holds(2))
  {
    var inner := OneOfCompactCriteria([Leaf(1), Leaf(2)]);
    var c := XOfCriteria(2, [Leaf(0), inner]);
    CompactIsOr(inner.kids, holds);
    assert Eval(inner, holds) <==> Eval(inner.kids[0], holds) || Eval(inner.kids[1], holds);
    AllRequiredIsAnd(c, holds);
    assert Eval(c, holds) <==> Eval(c.kids[0], holds) && Eval(c.kids[1], holds);
  }

  /** One-of with a true first child: the second child is never asked about. */
  lemma OrStopsAtFirstTrue(holds: nat -> bool)
    requires holds(0)
    ensures Trace(XOfCriteria(1, [Leaf(0), Leaf(1)]), holds) == [0]
  {
    var c := XOfCriteria(1, [Leaf(0), Leaf(1)]);
    var rs := Results(c.kids, holds);
    assert rs[0];
    assert Reach(rs, 1) == 1;
  }

  /** "Two of A, B, C" with A and B true stops before C; with A true and B false
      it has to ask about all three. */
  lemma TwoOfThreeTrace(holds: nat -> bool)
    ensures var c := XOfCriteria(2, [Leaf(0), Leaf(1), Leaf(2)]);
      (holds(0) && holds(1) ==> Trace(c, holds) == [0, 1]) &&
      (holds(0) && !holds(1) ==> Trace(c, holds) == [0, 1, 2])
  {
    var c := XOfCriteria(2, [Leaf(0), Leaf(1), Leaf(2)]);
    var rs := Results(c.kids, holds);
    assert rs == [holds(0), holds(1), holds(2)];
    assert ReachFrom(rs, 2, 0) == ReachFrom(rs, 2, 1);
    if holds(0) && !holds(1) {
      assert ReachFrom(rs, 2, 1) == ReachFrom(rs, 2, 2);
    }
  }
}
