/** How the verdict, the tally and the list of violations behave when findings
    are concatenated or rearranged. */
module GateFolds {
  import opened Sequences
  import opened Policy
  import opened Gate

  /** The verdict is the least upper bound of the weighted statuses: nothing
      outranks it, and it is either PASS or the weight of some finding. */
  lemma {:induction false} WorstIsLeastUpperBound(t: Status, fs: seq<Finding>)
    ensures forall f :: f in fs ==> Rank(Weighted(t, f.status)) <= Rank(Worst(t, fs))
    ensures Worst(t, fs) == Pass || exists f :: f in fs && Weighted(t, f.status) == Worst(t, fs)
    ensures !Worst(t, fs).Other?
  {
    if fs != [] {
      var init, last := fs[..|fs| - 1], fs[|fs| - 1];
      WorstIsLeastUpperBound(t, init);
      assert fs == init + [last];
      if Worst(t, fs) != Pass {
        if Rank(Weighted(t, last.status)) > Rank(Worst(t, init)) {
          assert last in fs;
        } else {
          var f :| f in init && Weighted(t, f.status) == Worst(t, init);
          assert f in fs;
        }
      }
    }
  }

  /** A verdict at least as bad as every weighted finding is at least as bad as
      the overall one. */
  lemma WorstBound(t: Status, fs: seq<Finding>, bound: nat)
    requires forall f :: f in fs ==> Rank(Weighted(t, f.status)) <= bound
    ensures Rank(Worst(t, fs)) <= bound
  {}

  lemma RankInjective(a: Status, b: Status)
    requires Rank(a) == Rank(b) && !a.Other? && !b.Other?
    ensures a == b
  {}

  /** Only which findings occur matters for the verdict. */
  lemma WorstSameMembers(t: Status, a: seq<Finding>, b: seq<Finding>)
    requires forall f :: f in a <==> f in b
    ensures Worst(t, a) == Worst(t, b)
  {
    WorstIsLeastUpperBound(t, a);
    WorstIsLeastUpperBound(t, b);
    WorstBound(t, a, Rank(Worst(t, b)));
    WorstBound(t, b, Rank(Worst(t, a)));
    RankInjective(Worst(t, a), Worst(t, b));
  }

  lemma {:induction false} WorstConcat(t: Status, a: seq<Finding>, b: seq<Finding>)
    ensures Worst(t, a + b) == Worse(Worst(t, a), Worst(t, b))
  {
    if b == [] {
      assert a + b == a;
    } else {
      assert (a + b)[..|a + b| - 1] == a + b[..|b| - 1];
      WorstConcat(t, a, b[..|b| - 1]);
    }
  }

  lemma {:induction false} NonPassConcat(a: seq<Finding>, b: seq<Finding>)
    ensures NonPass(a + b) == NonPass(a) + NonPass(b)
  {
    if b == [] {
      assert a + b == a;
    } else {
      assert (a + b)[..|a + b| - 1] == a + b[..|b| - 1];
      NonPassConcat(a, b[..|b| - 1]);
    }
  }

  /** Findings gathered in two parts: verdicts join, and the violations of the
      whole are those of the parts. */
  lemma FoldsConcat(t: Status, a: seq<Finding>, b: seq<Finding>)
    ensures Worst(t, a + b) == Worse(Worst(t, a), Worst(t, b))
    ensures NonPass(a + b) == NonPass(a) + NonPass(b)
  {
    WorstConcat(t, a, b);
    NonPassConcat(a, b);
  }

  lemma {:induction false} CountConcat(a: seq<Finding>, b: seq<Finding>, s: Status)
    ensures CountStatus(a + b, s) == CountStatus(a, s) + CountStatus(b, s)
  {
    if b == [] {
      assert a + b == a;
    } else {
      assert (a + b)[..|a + b| - 1] == a + b[..|b| - 1];
      CountConcat(a, b[..|b| - 1], s);
    }
  }

  lemma {:induction false} NonPassMultiset(fs: seq<Finding>, f: Finding)
    ensures multiset(NonPass(fs))[f] == if f.status == Pass then 0 else multiset(fs)[f]
  {
    if fs != [] {
      NonPassMultiset(fs[..|fs| - 1], f);
      assert fs == fs[..|fs| - 1] + [fs[|fs| - 1]];
    }
  }

  lemma NonPassPermuted(a: seq<Finding>, b: seq<Finding>)
    requires multiset(a) == multiset(b)
    ensures multiset(NonPass(a)) == multiset(NonPass(b))
  {
    forall f ensures multiset(NonPass(a))[f] == multiset(NonPass(b))[f] {
      NonPassMultiset(a, f);
      NonPassMultiset(b, f);
    }
  }

  lemma {:induction false} CountPermuted(a: seq<Finding>, b: seq<Finding>, s: Status)
    requires multiset(a) == multiset(b)
    ensures CountStatus(a, s) == CountStatus(b, s)
  {
    PermutationLength(a, b);
    if a != [] {
      var i := MatchHead(a, b);
      CountPermuted(a[1..], RemoveAt(b, i), s);
      assert a == [a[0]] + a[1..] && b == b[..i] + ([b[i]] + b[i + 1..]);
      CountConcat([a[0]], a[1..], s);
      CountConcat(b[..i], [b[i]] + b[i + 1..], s);
      CountConcat([b[i]], b[i + 1..], s);
      CountConcat(b[..i], b[i + 1..], s);
    }
  }
}
