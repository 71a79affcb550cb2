/**
 * What one open space receives while the traversal (which is not part of
 * this model) walks its subtree: the classifier is run on each node
 * attributed to it, and each child space, once closed, is finalized and
 * merged into it. The space is finalized itself when it closes. The
 * functions here fold those effects over a sequence; they state the order
 * independence of the statistic and encode the numbers of the unit tests,
 * they do not decide which node opens which space.
 */
module SpaceHarness {
  import opened CyclomaticStats
  import opened CyclomaticClassifier

  datatype Event =
    | Visit(node: Node)              // `compute` on a node of this space
    | ChildClosed(child: StatsValue) // `compute_minmax` on the child, then `merge` into this space

  function Apply(s: StatsValue, e: Event): StatsValue
  {
    match e
    case Visit(node) => Classified(s, node)
    case ChildClosed(child) => Merged(s, Finalized(child))
  }

  function Run(s: StatsValue, es: seq<Event>): StatsValue
    decreases |es|
  {
    if es == [] then s else Run(Apply(s, es[0]), es[1..])
  }

  /** Decision points among the visited nodes. */
  function Decisions(es: seq<Event>): nat
    decreases |es|
  {
    if es == [] then 0
    else (if es[0].Visit? && IsDecision(es[0].node) then 1 else 0) + Decisions(es[1..])
  }

  /** Spaces handed over by the closed children. */
  function ChildSpaces(es: seq<Event>): nat
    decreases |es|
  {
    if es == [] then 0
    else (if es[0].ChildClosed? then es[0].child.n else 0) + ChildSpaces(es[1..])
  }

  /** Local complexities handed over by the closed children. */
  function ChildSum(es: seq<Event>): nat
    decreases |es|
  {
    if es == [] then 0
    else (if es[0].ChildClosed? then Finalized(es[0].child).sum else 0) + ChildSum(es[1..])
  }

  /** The largest finalized local complexity handed over by the closed children; 0 if none. */
  function ChildMax(es: seq<Event>): nat
    decreases |es|
  {
    if es == [] then 0
    else Max(if es[0].ChildClosed? then Finalized(es[0].child).max else 0, ChildMax(es[1..]))
  }

  /** The smallest finalized local complexity handed over by the closed children; the sentinel if none. */
  function ChildMin(es: seq<Event>): Option<nat>
    decreases |es|
  {
    if es == [] then None
    else MinOpt(if es[0].ChildClosed? then Finalized(es[0].child).min else None, ChildMin(es[1..]))
  }

  /** Every child handed over is an open space, which `Apply` finalizes before merging. */
  ghost predicate ChildrenOpen(es: seq<Event>)
  {
    forall i :: 0 <= i < |es| && es[i].ChildClosed? ==> Open(es[i].child)
  }

  /**
   * Each decision point adds exactly one to the space's own complexity, and
   * each child's spaces and complexities are added once to the summary; the
   * extrema are those of the space's own summary and of its finalized children.
   */
  lemma {:induction false} RunCounts(s: StatsValue, es: seq<Event>)
    ensures Run(s, es).cyclomatic == s.cyclomatic + Decisions(es)
    ensures Run(s, es).n == s.n + ChildSpaces(es)
    ensures Run(s, es).sum == s.sum + ChildSum(es)
    ensures Run(s, es).max == Max(s.max, ChildMax(es))
    ensures Run(s, es).min == MinOpt(s.min, ChildMin(es))
    decreases |es|
  {
    if es != [] {
      RunCounts(Apply(s, es[0]), es[1..]);
    }
  }

  /** A positive children's maximum is the maximum of one particular finalized child. */
  lemma {:induction false} ChildMaxAttained(es: seq<Event>)
    ensures ChildMax(es) > 0 ==>
      exists i :: 0 <= i < |es| && es[i].ChildClosed? && Finalized(es[i].child).max == ChildMax(es)
    ensures forall i :: 0 <= i < |es| && es[i].ChildClosed? ==> Finalized(es[i].child).max <= ChildMax(es)
    decreases |es|
  {
    if es != [] {
      ChildMaxAttained(es[1..]);
      assert forall i :: 1 <= i < |es| ==> es[i] == es[1..][i - 1];
    }
  }

  /** The children's minimum, when there is one, is the minimum of one particular finalized child. */
  lemma {:induction false} ChildMinAttained(es: seq<Event>)
    ensures ChildMin(es).Some? ==>
      exists i :: 0 <= i < |es| && es[i].ChildClosed? && Finalized(es[i].child).min == ChildMin(es)
    ensures forall i :: 0 <= i < |es| && es[i].ChildClosed? ==>
      ChildMin(es).Some? && ChildMin(es).value <= Finalized(es[i].child).min.value
    decreases |es|
  {
    if es != [] {
      ChildMinAttained(es[1..]);
      assert forall i :: 1 <= i < |es| ==> es[i] == es[1..][i - 1];
    }
  }

  /** A space that only sees open children closing stays open. */
  lemma {:induction false} RunKeepsOpen(s: StatsValue, es: seq<Event>)
    requires Open(s) && ChildrenOpen(es)
    ensures Open(Run(s, es))
    decreases |es|
  {
    if es != [] {
      if es[0].Visit? {
        ClassifiedKeepsOpen(s, es[0].node);
      } else {
        assert Open(es[0].child);
        FinalizedCloses(es[0].child);
        MergedKeepsOpen(s, Finalized(es[0].child));
      }
      assert ChildrenOpen(es[1..]) by {
        forall i | 0 <= i < |es[1..]| && es[1..][i].ChildClosed?
          ensures Open(es[1..][i].child)
        {
          assert es[1..][i] == es[i + 1];
        }
      }
      RunKeepsOpen(Apply(s, es[0]), es[1..]);
    }
  }

  /** Any two events commute. */
  lemma ApplyCommutes(s: StatsValue, e1: Event, e2: Event)
    ensures Apply(Apply(s, e1), e2) == Apply(Apply(s, e2), e1)
  {
    match (e1, e2)
    case (ChildClosed(c1), ChildClosed(c2)) =>
      MergeOrderIrrelevant(s, Finalized(c1), Finalized(c2));
    case _ =>
  }

  lemma {:induction false} RunMoveToFront(s: StatsValue, pre: seq<Event>, x: Event, post: seq<Event>)
    ensures Run(s, pre + [x] + post) == Run(s, [x] + pre + post)
    decreases |pre|
  {
    if pre != [] {
      var p, rest := pre[0], pre[1..];
      calc {
        Run(s, pre + [x] + post);
        { assert pre + [x] + post == [p] + (rest + [x] + post); }
        Run(Apply(s, p), rest + [x] + post);
        { RunMoveToFront(Apply(s, p), rest, x, post); }
        Run(Apply(s, p), [x] + rest + post);
        { assert ([x] + rest + post)[1..] == rest + post; }
        Run(Apply(Apply(s, p), x), rest + post);
        { ApplyCommutes(s, p, x); }
        Run(Apply(Apply(s, x), p), rest + post);
        { assert ([p] + rest + post)[1..] == rest + post; }
        Run(Apply(s, x), [p] + rest + post);
        { assert [x] + pre + post == [x] + ([p] + rest + post); }
        Run(s, [x] + pre + post);
      }
    }
  }

  lemma RunCons(s: StatsValue, e: Event, es: seq<Event>)
    ensures Run(s, [e] + es) == Run(Apply(s, e), es)
  {
    assert ([e] + es)[1..] == es;
  }

  /** Taking one occurrence of `x` out of both sides keeps two multisets equal. */
  lemma MultisetTakeOut(x: Event, rest: seq<Event>, pre: seq<Event>, post: seq<Event>)
    requires multiset([x] + rest) == multiset(pre + [x] + post)
    ensures multiset(rest) == multiset(pre + post)
  {
    var single := multiset{x};
    assert multiset([x] + rest) == single + multiset(rest);
    assert pre + [x] + post == pre + ([x] + post);
    assert multiset(pre + [x] + post) == multiset(pre) + multiset{x} + multiset(post);
    assert multiset(pre + post) == multiset(pre) + multiset(post);
    assert multiset(rest) == (single + multiset(rest)) - single;
    assert multiset(pre + post) == (single + multiset(pre + post)) - single;
  }

  /**
   * Order independence: a space that receives the same decisions and the
   * same closed children in any order ends with the same statistic.
   */
  lemma {:induction false} RunOrderIndependent(s: StatsValue, xs: seq<Event>, ys: seq<Event>)
    requires multiset(xs) == multiset(ys)
    ensures Run(s, xs) == Run(s, ys)
    decreases |xs|
  {
    if xs == [] {
      assert |ys| == |multiset(ys)| == 0;
    } else {
      var x, rest := xs[0], xs[1..];
      assert xs == [x] + rest;
      assert x in multiset(ys);
      var i :| 0 <= i < |ys| && ys[i] == x;
      var pre, post := ys[..i], ys[i + 1..];
      assert ys == pre + [x] + post;
      MultisetTakeOut(x, rest, pre, post);
      RunOrderIndependent(Apply(s, x), rest, pre + post);
      RunCons(s, x, rest);
      RunCons(s, x, pre + post);
      RunMoveToFront(s, pre, x, post);
      assert [x] + pre + post == [x] + (pre + post);
    }
  }

  lemma Run3(s: StatsValue, a: Event, b: Event, c: Event)
    ensures Run(s, [a, b, c]) == Apply(Apply(Apply(s, a), b), c)
  {
    assert [a, b, c] == [a] + [b, c] && [b, c] == [b] + [c] && [c] == [c] + [];
    RunCons(s, a, [b, c]);
    RunCons(Apply(s, a), b, [c]);
    RunCons(Apply(Apply(s, a), b), c, []);
  }

  /** python_simple_function: two `if ... and ...` in one function. */
  lemma PythonSimpleFunction()
    ensures var f := Apply(Apply(Apply(Apply(DefaultValue(),
                       Visit(PythonNode(PythonKind.If, false))), Visit(PythonNode(PythonKind.And, false))),
                       Visit(PythonNode(PythonKind.If, false))), Visit(PythonNode(PythonKind.And, false)));
            var u := Finalized(Apply(DefaultValue(), ChildClosed(f)));
            u.sum == 6 && u.n == 2 && Average(u) == 3.0 && u.min == Some(1) && u.max == 5
  {
    var f1 := Apply(DefaultValue(), Visit(PythonNode(PythonKind.If, false)));
    assert f1 == StatsValue(0, 2, 1, 0, None);
    var f2 := Apply(f1, Visit(PythonNode(PythonKind.And, false)));
    assert f2 == StatsValue(0, 3, 1, 0, None);
    var f3 := Apply(f2, Visit(PythonNode(PythonKind.If, false)));
    assert f3 == StatsValue(0, 4, 1, 0, None);
    var f := Apply(f3, Visit(PythonNode(PythonKind.And, false)));
    assert f == StatsValue(0, 5, 1, 0, None);
    var u := Apply(DefaultValue(), ChildClosed(f));
    assert u == StatsValue(5, 1, 2, 5, Some(5));
    assert Finalized(u) == StatsValue(6, 1, 2, 5, Some(1));
  }

  /** python_1_level_nesting: an `if` holding a `for`. */
  lemma PythonOneLevelNesting()
    ensures var f := Apply(Apply(DefaultValue(),
                       Visit(PythonNode(PythonKind.If, false))), Visit(PythonNode(PythonKind.For, false)));
            var u := Finalized(Apply(DefaultValue(), ChildClosed(f)));
            u.sum == 4 && u.n == 2 && Average(u) == 2.0 && u.min == Some(1) && u.max == 3
  {
    var f1 := Apply(DefaultValue(), Visit(PythonNode(PythonKind.If, false)));
    assert f1 == StatsValue(0, 2, 1, 0, None);
    var f := Apply(f1, Visit(PythonNode(PythonKind.For, false)));
    assert f == StatsValue(0, 3, 1, 0, None);
    var u := Apply(DefaultValue(), ChildClosed(f));
    assert u == StatsValue(3, 1, 2, 3, Some(3));
    assert Finalized(u) == StatsValue(4, 1, 2, 3, Some(1));
  }

  /** rust_1_level_nesting: an `if` holding a two-armed `match`. */
  lemma RustOneLevelNesting()
    ensures var f := Apply(Apply(Apply(DefaultValue(),
                       Visit(RustNode(RustKind.If))), Visit(RustNode(RustKind.MatchArm))), Visit(RustNode(RustKind.MatchArm)));
            var u := Finalized(Apply(DefaultValue(), ChildClosed(f)));
            u.sum == 5 && u.n == 2 && Average(u) == 2.5 && u.min == Some(1) && u.max == 4
  {
    var f1 := Apply(DefaultValue(), Visit(RustNode(RustKind.If)));
    assert f1 == StatsValue(0, 2, 1, 0, None);
    var f2 := Apply(f1, Visit(RustNode(RustKind.MatchArm)));
    assert f2 == StatsValue(0, 3, 1, 0, None);
    var f := Apply(f2, Visit(RustNode(RustKind.MatchArm)));
    assert f == StatsValue(0, 4, 1, 0, None);
    var u := Apply(DefaultValue(), ChildClosed(f));
    assert u == StatsValue(4, 1, 2, 4, Some(4));
    assert Finalized(u) == StatsValue(5, 1, 2, 4, Some(1));
  }

  /** c_switch: three `case` labels and a `default`, which is not a decision. */
  lemma CSwitch()
    ensures var f := Apply(Apply(Apply(Apply(DefaultValue(),
                       Visit(CppNode(CppKind.Case))), Visit(CppNode(CppKind.Case))),
                       Visit(CppNode(CppKind.Case))), Visit(CppNode(CppKind.Other)));
            var u := Finalized(Apply(DefaultValue(), ChildClosed(f)));
            u.sum == 5 && u.n == 2 && Average(u) == 2.5 && u.min == Some(1) && u.max == 4
  {
    var f1 := Apply(DefaultValue(), Visit(CppNode(CppKind.Case)));
    assert f1 == StatsValue(0, 2, 1, 0, None);
    var f2 := Apply(f1, Visit(CppNode(CppKind.Case)));
    assert f2 == StatsValue(0, 3, 1, 0, None);
    var f3 := Apply(f2, Visit(CppNode(CppKind.Case)));
    assert f3 == StatsValue(0, 4, 1, 0, None);
    var f := Apply(f3, Visit(CppNode(CppKind.Other)));
    assert f == f3;
    var u := Apply(DefaultValue(), ChildClosed(f));
    assert u == StatsValue(4, 1, 2, 4, Some(4));
    assert Finalized(u) == StatsValue(5, 1, 2, 4, Some(1));
  }

  /** The function of c_real_function, c_unit_before and c_unit_after: two `for`s and an `if`. */
  function SumOfPrimes(): StatsValue
  {
    Run(DefaultValue(), [Visit(CppNode(CppKind.For)), Visit(CppNode(CppKind.For)), Visit(CppNode(CppKind.If))])
  }

  lemma SumOfPrimesLocal()
    ensures SumOfPrimes() == StatsValue(0, 4, 1, 0, None)
  {
    var f1 := Apply(DefaultValue(), Visit(CppNode(CppKind.For)));
    assert f1 == StatsValue(0, 2, 1, 0, None);
    var f2 := Apply(f1, Visit(CppNode(CppKind.For)));
    assert f2 == StatsValue(0, 3, 1, 0, None);
    assert Apply(f2, Visit(CppNode(CppKind.If))) == StatsValue(0, 4, 1, 0, None);
    Run3(DefaultValue(), Visit(CppNode(CppKind.For)), Visit(CppNode(CppKind.For)), Visit(CppNode(CppKind.If)));
  }

  lemma CRealFunction()
    ensures var u := Finalized(Apply(DefaultValue(), ChildClosed(SumOfPrimes())));
            u.sum == 5 && u.n == 2 && Average(u) == 2.5 && u.min == Some(1) && u.max == 4
  {
    SumOfPrimesLocal();
    var u := Apply(DefaultValue(), ChildClosed(SumOfPrimes()));
    assert u == StatsValue(4, 1, 2, 4, Some(4));
    assert Finalized(u) == StatsValue(5, 1, 2, 4, Some(1));
  }

  /**
   * c_unit_before and c_unit_after: the unit's two `if`s come before or
   * after the function; both orders give the same statistic, by the order
   * independence theorem, and that statistic is the tested one.
   */
  lemma CUnitBeforeAndAfter()
    ensures var before := [Visit(CppNode(CppKind.If)), Visit(CppNode(CppKind.If)), ChildClosed(SumOfPrimes())];
            var after := [ChildClosed(SumOfPrimes()), Visit(CppNode(CppKind.If)), Visit(CppNode(CppKind.If))];
            Finalized(Run(DefaultValue(), before)) == Finalized(Run(DefaultValue(), after)) &&
            var u := Finalized(Run(DefaultValue(), after));
            u.sum == 7 && u.n == 2 && Average(u) == 3.5 && u.min == Some(3) && u.max == 4
  {
    var i, f := Visit(CppNode(CppKind.If)), ChildClosed(SumOfPrimes());
    assert multiset([i, i, f]) == multiset([f, i, i]);
    RunOrderIndependent(DefaultValue(), [i, i, f], [f, i, i]);
    Run3(DefaultValue(), f, i, i);
    SumOfPrimesLocal();
    var u1 := Apply(DefaultValue(), f);
    assert u1 == StatsValue(4, 1, 2, 4, Some(4));
    var u2 := Apply(u1, i);
    assert u2 == StatsValue(4, 2, 2, 4, Some(4));
    var u := Apply(u2, i);
    assert u == StatsValue(4, 3, 2, 4, Some(4));
    assert Finalized(u) == StatsValue(7, 3, 2, 4, Some(3));
  }

  /** java_simple_class: the unit holds a class with a ternary and an `&&`, which holds two methods. */
  lemma JavaSimpleClass()
    ensures var m1 := Apply(Apply(DefaultValue(), Visit(JavaNode(JavaKind.If))), Visit(JavaNode(JavaKind.PIPEPIPE)));
            var m2 := Apply(DefaultValue(), Visit(JavaNode(JavaKind.While)));
            var example := Apply(Apply(Apply(Apply(DefaultValue(),
                             Visit(JavaNode(JavaKind.TernaryExpression))), Visit(JavaNode(JavaKind.AMPAMP))),
                             ChildClosed(m1)), ChildClosed(m2));
            var u := Finalized(Apply(DefaultValue(), ChildClosed(example)));
            u.sum == 9 && u.n == 4 && Average(u) == 2.25 && u.min == Some(1) && u.max == 3
  {
    var one, two := StatsValue(0, 2, 1, 0, None), StatsValue(0, 3, 1, 0, None);
    assert Apply(DefaultValue(), Visit(JavaNode(JavaKind.If))) == one;
    assert Apply(one, Visit(JavaNode(JavaKind.PIPEPIPE))) == two;
    assert Apply(DefaultValue(), Visit(JavaNode(JavaKind.While))) == one;
    assert Apply(DefaultValue(), Visit(JavaNode(JavaKind.TernaryExpression))) == one;
    assert Apply(one, Visit(JavaNode(JavaKind.AMPAMP))) == two;
    var c := Apply(two, ChildClosed(two));
    assert c == StatsValue(3, 3, 2, 3, Some(3));
    var example := Apply(c, ChildClosed(one));
    assert example == StatsValue(5, 3, 3, 3, Some(2));
    var u := Apply(DefaultValue(), ChildClosed(example));
    assert u == StatsValue(8, 1, 4, 3, Some(2));
    assert Finalized(u) == StatsValue(9, 1, 4, 3, Some(1));
  }

  /** java_real_class: three methods with two decisions each. */
  lemma JavaRealClass()
    ensures var init := Apply(Apply(DefaultValue(), Visit(JavaNode(JavaKind.For))), Visit(JavaNode(JavaKind.For)));
            var compute := Apply(Apply(DefaultValue(), Visit(JavaNode(JavaKind.Catch))), Visit(JavaNode(JavaKind.Catch)));
            var printResult := Apply(Apply(DefaultValue(), Visit(JavaNode(JavaKind.Case))), Visit(JavaNode(JavaKind.Case)));
            var matrix := Apply(Apply(Apply(DefaultValue(),
                            ChildClosed(init)), ChildClosed(compute)), ChildClosed(printResult));
            var u := Finalized(Apply(DefaultValue(), ChildClosed(matrix)));
            u.sum == 11 && u.n == 5 && Average(u) == 2.2 && u.min == Some(1) && u.max == 3
  {
    var one, two := StatsValue(0, 2, 1, 0, None), StatsValue(0, 3, 1, 0, None);
    assert Apply(DefaultValue(), Visit(JavaNode(JavaKind.For))) == one;
    assert Apply(one, Visit(JavaNode(JavaKind.For))) == two;
    assert Apply(DefaultValue(), Visit(JavaNode(JavaKind.Catch))) == one;
    assert Apply(one, Visit(JavaNode(JavaKind.Catch))) == two;
    assert Apply(DefaultValue(), Visit(JavaNode(JavaKind.Case))) == one;
    assert Apply(one, Visit(JavaNode(JavaKind.Case))) == two;
    var x1 := Apply(DefaultValue(), ChildClosed(two));
    assert x1 == StatsValue(3, 1, 2, 3, Some(3));
    var x2 := Apply(x1, ChildClosed(two));
    assert x2 == StatsValue(6, 1, 3, 3, Some(3));
    var matrix := Apply(x2, ChildClosed(two));
    assert matrix == StatsValue(9, 1, 4, 3, Some(3));
    var u := Apply(DefaultValue(), ChildClosed(matrix));
    assert u == StatsValue(10, 1, 5, 3, Some(1));
    assert Finalized(u) == StatsValue(11, 1, 5, 3, Some(1));
  }

  /** java_anonymous_class: the anonymous class's methods are spaces of their own. */
  lemma JavaAnonymousClass()
    ensures var abstractMethod := DefaultValue();
            var a := Apply(Apply(DefaultValue(), ChildClosed(abstractMethod)), ChildClosed(abstractMethod));
            var m := Apply(DefaultValue(), Visit(JavaNode(JavaKind.If)));
            var test := Apply(Apply(DefaultValue(), ChildClosed(m)), ChildClosed(m));
            var b := Apply(DefaultValue(), ChildClosed(test));
            var u := Finalized(Apply(Apply(DefaultValue(), ChildClosed(a)), ChildClosed(b)));
            u.sum == 10 && u.n == 8 && Average(u) == 1.25 && u.min == Some(1) && u.max == 2
  {
    var a1 := Apply(DefaultValue(), ChildClosed(DefaultValue()));
    assert a1 == StatsValue(1, 1, 2, 1, Some(1));
    var a := Apply(a1, ChildClosed(DefaultValue()));
    assert a == StatsValue(2, 1, 3, 1, Some(1));
    var m := Apply(DefaultValue(), Visit(JavaNode(JavaKind.If)));
    assert m == StatsValue(0, 2, 1, 0, None);
    var t1 := Apply(DefaultValue(), ChildClosed(m));
    assert t1 == StatsValue(2, 1, 2, 2, Some(2));
    var test := Apply(t1, ChildClosed(m));
    assert test == StatsValue(4, 1, 3, 2, Some(2));
    var b := Apply(DefaultValue(), ChildClosed(test));
    assert b == StatsValue(5, 1, 4, 2, Some(1));
    var u1 := Apply(DefaultValue(), ChildClosed(a));
    assert u1 == StatsValue(3, 1, 4, 1, Some(1));
    var u := Apply(u1, ChildClosed(b));
    assert u == StatsValue(9, 1, 8, 2, Some(1));
    assert Finalized(u) == StatsValue(10, 1, 8, 2, Some(1));
  }

  /**
   * c_unit_before on the in-place records: the unit classifies its two `if`s,
   * then the function is classified, finalized and merged into it, and the
   * unit is finalized last.
   */
  method CUnitBeforeInPlace() returns (sum: nat, average: real, min: Option<nat>, max: nat)
    ensures sum == 7 && average == 3.5 && min == Some(3) && max == 4
  {
    var unit := new Stats();
    Compute(CppNode(CppKind.If), unit);
    assert unit.Value() == StatsValue(0, 2, 1, 0, None);
    Compute(CppNode(CppKind.If), unit);
    assert unit.Value() == StatsValue(0, 3, 1, 0, None);
    var sumOfPrimes := new Stats();
    Compute(CppNode(CppKind.For), sumOfPrimes);
    assert sumOfPrimes.Value() == StatsValue(0, 2, 1, 0, None);
    Compute(CppNode(CppKind.For), sumOfPrimes);
    assert sumOfPrimes.Value() == StatsValue(0, 3, 1, 0, None);
    Compute(CppNode(CppKind.If), sumOfPrimes);
    assert sumOfPrimes.Value() == StatsValue(0, 4, 1, 0, None);
    sumOfPrimes.ComputeMinmax();
    assert sumOfPrimes.Value() == StatsValue(4, 4, 1, 4, Some(4));
    unit.Merge(sumOfPrimes);
    assert unit.Value() == StatsValue(4, 3, 2, 4, Some(4));
    unit.ComputeMinmax();
    assert unit.Value() == StatsValue(7, 3, 2, 4, Some(3));
    sum, average, min, max := unit.cyclomaticSum, unit.CyclomaticAverage(), unit.cyclomaticMin, unit.cyclomaticMax;
  }
}
