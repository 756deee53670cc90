/** The filters of an instance list: `launching`, `new`, `old`,
    `terminating` and `unready`. Each keeps, in order, the instances that
    satisfy its test, and its result is again a list over the same group,
    so filters can be chained (`new.unready`, `old.terminating`). */
module Filters {
  import opened Model
  import opened Health

  // ---------------------------------------------------------------------
  // Order-preserving selection
  // ---------------------------------------------------------------------

  /** The elements of `xs` that satisfy `p`, in their order. */
  function Keep<T>(xs: seq<T>, p: T -> bool): seq<T>
  {
    if xs == [] then []
    else
      var last := xs[|xs| - 1];
      Keep(xs[..|xs| - 1], p) + (if p(last) then [last] else [])
  }

  lemma {:induction false} KeepMembers<T>(xs: seq<T>, p: T -> bool, x: T)
    ensures x in Keep(xs, p) <==> x in xs && p(x)
  {
    if xs != [] {
      var init := xs[..|xs| - 1];
      KeepMembers(init, p, x);
      assert xs == init + [xs[|xs| - 1]];
    }
  }

  lemma KeepSingle<T>(x: T, p: T -> bool)
    ensures Keep([x], p) == if p(x) then [x] else []
  {
    assert [x][..0] == [];
  }

  lemma {:induction false} KeepConcat<T>(xs: seq<T>, ys: seq<T>, p: T -> bool)
    ensures Keep(xs + ys, p) == Keep(xs, p) + Keep(ys, p)
    decreases |ys|
  {
    if ys == [] {
      assert xs + ys == xs;
    } else {
      var init := ys[..|ys| - 1];
      KeepConcat(xs, init, p);
      var zs := xs + ys;
      assert zs[..|zs| - 1] == xs + init;
    }
  }

  /** Keeping by a test and by its negation splits the list's elements. */
  lemma {:induction false} KeepPartition<T>(xs: seq<T>, p: T -> bool, q: T -> bool)
    requires forall x :: x in xs ==> (q(x) <==> !p(x))
    ensures multiset(Keep(xs, p)) + multiset(Keep(xs, q)) == multiset(xs)
  {
    if xs != [] {
      var init := xs[..|xs| - 1];
      var last := xs[|xs| - 1];
      assert xs == init + [last];
      assert forall x :: x in init ==> x in xs;
      KeepPartition(init, p, q);
      assert multiset(xs) == multiset(init) + multiset{last};
    }
  }

  /** Keeping by `p` and then by `q` is keeping by their conjunction `r`. */
  lemma {:induction false} KeepBoth<T>(xs: seq<T>, p: T -> bool, q: T -> bool, r: T -> bool)
    requires forall x :: x in xs ==> (r(x) <==> p(x) && q(x))
    ensures Keep(Keep(xs, p), q) == Keep(xs, r)
  {
    if xs != [] {
      var init := xs[..|xs| - 1];
      var last := xs[|xs| - 1];
      assert forall x :: x in init ==> x in xs;
      KeepBoth(init, p, q, r);
      KeepConcat(Keep(init, p), if p(last) then [last] else [], q);
      KeepSingle(last, q);
    }
  }

  /** Two tests that agree on the list keep the same elements. */
  lemma {:induction false} KeepSame<T>(xs: seq<T>, p: T -> bool, q: T -> bool)
    requires forall x :: x in xs ==> p(x) == q(x)
    ensures Keep(xs, p) == Keep(xs, q)
  {
    if xs != [] {
      var init := xs[..|xs| - 1];
      assert forall x :: x in init ==> x in xs;
      KeepSame(init, p, q);
    }
  }

  /** A test every element passes keeps the whole list. */
  lemma {:induction false} KeepEvery<T>(xs: seq<T>, p: T -> bool)
    requires forall x :: x in xs ==> p(x)
    ensures Keep(xs, p) == xs
  {
    if xs != [] {
      var init := xs[..|xs| - 1];
      assert xs == init + [xs[|xs| - 1]];
      KeepEvery(init, p);
    }
  }

  // ---------------------------------------------------------------------
  // The filters
  // ---------------------------------------------------------------------

  datatype Filter = Launching | New | Old | Terminating | Unready

  /** The test each filter applies to one instance. */
  predicate Matches(s: Snapshot, f: Filter, inst: Instance)
  {
    match f
    case Launching => InstanceStatus(s, inst) in LaunchingStatuses
    case New => inst.launchConfigurationName == Some(s.group.launchConfigurationName)
    case Old => inst.launchConfigurationName != Some(s.group.launchConfigurationName)
    case Terminating => InstanceStatus(s, inst) in TerminatingStatuses
    case Unready => InstanceStatus(s, inst) != ReadyStatus
  }

  function Test(s: Snapshot, f: Filter): Instance -> bool
  {
    inst => Matches(s, f, inst)
  }

  /** The filtered list: the instances of `xs` that pass `f`, in order. */
  function Apply(s: Snapshot, f: Filter, xs: seq<Instance>): seq<Instance>
  {
    Keep(xs, Test(s, f))
  }

  /** The loop each filter property of the source runs: walk the list and
      append every instance that passes the test. */
  method Select(s: Snapshot, f: Filter, xs: seq<Instance>) returns (r: seq<Instance>)
    ensures r == Apply(s, f, xs)
  {
    r := [];
    for i := 0 to |xs|
      invariant r == Apply(s, f, xs[..i])
    {
      var inst := xs[i];
      assert xs[..i + 1][..i] == xs[..i];
      if Matches(s, f, inst) {
        r := r + [inst];
      }
    }
    assert xs[..|xs|] == xs;
  }

  /** An instance is in the filtered list iff it is in the list and passes. */
  lemma ApplyMembers(s: Snapshot, f: Filter, xs: seq<Instance>, x: Instance)
    ensures x in Apply(s, f, xs) <==> x in xs && Matches(s, f, x)
  {
    KeepMembers(xs, Test(s, f), x);
  }

  /** A single instance is kept exactly when it passes. */
  lemma ApplySingle(s: Snapshot, f: Filter, x: Instance)
    ensures Apply(s, f, [x]) == if Matches(s, f, x) then [x] else []
  {
    KeepSingle(x, Test(s, f));
  }

  /** A filter keeps nothing of a list whose every instance fails it. */
  lemma NoneFail(s: Snapshot, f: Filter, xs: seq<Instance>)
    requires forall x :: x in xs ==> !Matches(s, f, x)
    ensures Apply(s, f, xs) == []
  {
    if Apply(s, f, xs) != [] {
      ApplyMembers(s, f, xs, Apply(s, f, xs)[0]);
    }
  }

  /** Filtering is order preserving: it commutes with concatenation. */
  lemma ApplyConcat(s: Snapshot, f: Filter, xs: seq<Instance>, ys: seq<Instance>)
    ensures Apply(s, f, xs + ys) == Apply(s, f, xs) + Apply(s, f, ys)
  {
    KeepConcat(xs, ys, Test(s, f));
  }

  /** `new` and `old` partition the list: every instance is in exactly one
      of them, and together they hold the list's instances with their
      multiplicities. */
  lemma NewOldPartition(s: Snapshot, xs: seq<Instance>)
    ensures multiset(Apply(s, New, xs)) + multiset(Apply(s, Old, xs)) == multiset(xs)
    ensures |Apply(s, New, xs)| + |Apply(s, Old, xs)| == |xs|
    ensures forall x :: x in xs ==> (x in Apply(s, New, xs) <==> x !in Apply(s, Old, xs))
  {
    KeepPartition(xs, Test(s, New), Test(s, Old));
    assert |multiset(Apply(s, New, xs)) + multiset(Apply(s, Old, xs))| == |multiset(xs)|;
    forall x | x in xs
      ensures x in Apply(s, New, xs) <==> x !in Apply(s, Old, xs)
    {
      ApplyMembers(s, New, xs, x);
      ApplyMembers(s, Old, xs, x);
    }
  }

  // ---------------------------------------------------------------------
  // Composition of filters
  // ---------------------------------------------------------------------

  /** The list `xs.fs[0].fs[1]...`: the filters applied one after another. */
  function Chain(s: Snapshot, fs: seq<Filter>, xs: seq<Instance>): seq<Instance>
  {
    if fs == [] then xs else Apply(s, fs[|fs| - 1], Chain(s, fs[..|fs| - 1], xs))
  }

  predicate MatchesAll(s: Snapshot, fs: seq<Filter>, inst: Instance)
  {
    forall f :: f in fs ==> Matches(s, f, inst)
  }

  /** Reference definition: one pass keeping the instances that pass every filter. */
  function KeepAll(s: Snapshot, fs: seq<Filter>, xs: seq<Instance>): seq<Instance>
  {
    Keep(xs, inst => MatchesAll(s, fs, inst))
  }

  lemma ApplyKeepAll(s: Snapshot, fs: seq<Filter>, f: Filter, xs: seq<Instance>)
    ensures Apply(s, f, KeepAll(s, fs, xs)) == KeepAll(s, fs + [f], xs)
  {
    forall x | x in xs
      ensures MatchesAll(s, fs + [f], x) <==> MatchesAll(s, fs, x) && Matches(s, f, x)
    {
    }
    KeepBoth(xs, inst => MatchesAll(s, fs, inst), Test(s, f), inst => MatchesAll(s, fs + [f], inst));
  }

  /** Chaining filters equals filtering once by all of them together. */
  lemma {:induction false} ChainIsConjunction(s: Snapshot, fs: seq<Filter>, xs: seq<Instance>)
    ensures Chain(s, fs, xs) == KeepAll(s, fs, xs)
  {
    if fs == [] {
      KeepEvery(xs, inst => MatchesAll(s, [], inst));
    } else {
      var init := fs[..|fs| - 1];
      ChainIsConjunction(s, init, xs);
      ApplyKeepAll(s, init, fs[|fs| - 1], xs);
      assert init + [fs[|fs| - 1]] == fs;
    }
  }

  lemma KeepAllSameFilters(s: Snapshot, fs: seq<Filter>, gs: seq<Filter>, xs: seq<Instance>)
    requires forall f :: f in fs <==> f in gs
    ensures KeepAll(s, fs, xs) == KeepAll(s, gs, xs)
  {
    KeepSame(xs, inst => MatchesAll(s, fs, inst), inst => MatchesAll(s, gs, inst));
  }

  /** Two filters applied in either order give the same list. */
  lemma ApplyCommutes(s: Snapshot, f: Filter, g: Filter, xs: seq<Instance>)
    ensures Apply(s, g, Apply(s, f, xs)) == Apply(s, f, Apply(s, g, xs))
  {
    ChainIsConjunction(s, [f, g], xs);
    ChainIsConjunction(s, [g, f], xs);
    assert [f, g][..1] == [f] && [f][..0] == [];
    assert [g, f][..1] == [g] && [g][..0] == [];
    assert Chain(s, [f], xs) == Apply(s, f, xs);
    assert Chain(s, [g], xs) == Apply(s, g, xs);
    KeepAllSameFilters(s, [f, g], [g, f], xs);
  }

  /** Filtering by `g` after `f` changes nothing when `f` implies `g`. */
  lemma ApplyImplied(s: Snapshot, f: Filter, g: Filter, xs: seq<Instance>)
    requires forall x :: x in xs && Matches(s, f, x) ==> Matches(s, g, x)
    ensures Apply(s, g, Apply(s, f, xs)) == Apply(s, f, xs)
  {
    KeepBoth(xs, Test(s, f), Test(s, g), Test(s, f));
  }

  /** Every launching instance and every terminating instance is unready. */
  lemma LaunchingAndTerminatingAreUnready(s: Snapshot, xs: seq<Instance>)
    ensures Apply(s, Unready, Apply(s, Launching, xs)) == Apply(s, Launching, xs)
    ensures Apply(s, Unready, Apply(s, Terminating, xs)) == Apply(s, Terminating, xs)
  {
    ApplyImplied(s, Launching, Unready, xs);
    ApplyImplied(s, Terminating, Unready, xs);
  }
}
