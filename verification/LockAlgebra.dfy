/** The merge of src/runner/dvc_lock_merge.py as an operation on dictionaries with a fixed base:
    a flat-lattice join at every key, with the conflict on top. */
module LockAlgebra {
  import opened Prelude
  import opened LockMerge

  /** Stage entries of a dvc.lock. */
  type Lock = map<string, Plain>

  /** Some pointwise merge, or None when some key clashes. */
  function Merge(o: Lock, a: Lock, b: Lock): (r: Option<Lock>)
    ensures r.Some? ==> IsMerge(o, a, b, r.value)
    ensures r.None? ==> exists k :: ResolveAt(o, a, b, k).Clash?
  {
    if exists k :: k in a.Keys + b.Keys + o.Keys && ResolveAt(o, a, b, k).Clash? then None
    else Some(map k | k in a.Keys + b.Keys && Survives(o, a, b, k) :: ResolveAt(o, a, b, k).value.value)
  }

  lemma SameLock(a: Lock, b: Lock)
    requires forall k :: Lookup(a, k) == Lookup(b, k)
    ensures a == b
  {
    forall k ensures k in a <==> k in b {
      assert Lookup(a, k) == Lookup(b, k);
    }
    forall k | k in a ensures a[k] == b[k] {
      assert Lookup(a, k) == Lookup(b, k);
    }
  }

  /** A merge is determined by its meaning at every key. */
  lemma MergeUnique(o: Lock, a: Lock, b: Lock, m: Lock)
    requires IsMerge(o, a, b, m)
    ensures Merge(o, a, b) == Some(m)
  {
    forall k ensures ResolveAt(o, a, b, k) == Keep(Lookup(m, k)) {}
    var r := Merge(o, a, b);
    forall k ensures Lookup(r.value, k) == Lookup(m, k) {
      assert ResolveAt(o, a, b, k) == Keep(Lookup(m, k));
    }
    SameLock(r.value, m);
  }

  /** The in-place merge of documents computes this operation on the stages. */
  lemma StageMergeIsMerge(o: Section, a: Section, b: Section, r: SectionResult)
    requires StageMergeSpec(o, a, b, r)
    ensures Merge(o.entries, a.entries, b.entries)
         == match r case Merged(m) => Some(m.entries) case ClashOn(_) => None
  {
    if r.Merged? {
      MergeUnique(o.entries, a.entries, b.entries, r.section.entries);
    }
  }

  /** The conflict absorbs. */
  function Join(o: Lock, a: Option<Lock>, b: Option<Lock>): Option<Lock> {
    if a.Some? && b.Some? then Merge(o, a.value, b.value) else None
  }

  // ---------------------------------------------------------------- laws

  lemma MergeCommutes(o: Lock, a: Lock, b: Lock)
    ensures Merge(o, a, b) == Merge(o, b, a)
  {
    forall k ensures ResolveAt(o, a, b, k) == ResolveAt(o, b, a, k) {
    }
    if Merge(o, a, b).Some? {
      assert IsMerge(o, b, a, Merge(o, a, b).value);
      MergeUnique(o, b, a, Merge(o, a, b).value);
    }
  }

  lemma MergeIdempotent(o: Lock, a: Lock)
    ensures Merge(o, a, a) == Some(a)
  {
    MergeUnique(o, a, a, a);
  }

  lemma BaseIsIdentity(o: Lock, a: Lock)
    ensures Merge(o, a, o) == Some(a) && Merge(o, o, a) == Some(a)
  {
    MergeUnique(o, a, o, a);
    MergeUnique(o, o, a, a);
  }

  // ---------------------------------------------------------------- the order behind the merge

  /** `b` holds every entry that `a` changed: at each key `a` is the base or agrees with `b`. */
  ghost predicate Below(o: Lock, a: Lock, b: Lock) {
    forall k :: Lookup(a, k) == Lookup(o, k) || Lookup(a, k) == Lookup(b, k)
  }

  lemma BelowTransitive(o: Lock, a: Lock, b: Lock, c: Lock)
    requires Below(o, a, b) && Below(o, b, c)
    ensures Below(o, a, c)
  {
    forall k ensures Lookup(a, k) == Lookup(o, k) || Lookup(a, k) == Lookup(c, k) {
      assert Lookup(b, k) == Lookup(o, k) || Lookup(b, k) == Lookup(c, k);
    }
  }

  lemma BelowAntisymmetric(o: Lock, a: Lock, b: Lock)
    requires Below(o, a, b) && Below(o, b, a)
    ensures a == b
  {
    forall k ensures Lookup(a, k) == Lookup(b, k) {
      assert Lookup(b, k) == Lookup(o, k) || Lookup(b, k) == Lookup(a, k);
    }
    SameLock(a, b);
  }

  /** The merge is the least upper bound, and it exists as soon as some upper bound does. */
  lemma MergeIsLeastUpperBound(o: Lock, a: Lock, b: Lock)
    ensures forall c :: Below(o, a, c) && Below(o, b, c) ==>
              Merge(o, a, b).Some? && Below(o, Merge(o, a, b).value, c)
    ensures Merge(o, a, b).Some? ==>
              Below(o, a, Merge(o, a, b).value) && Below(o, b, Merge(o, a, b).value)
  {
    var r := Merge(o, a, b);
    forall c | Below(o, a, c) && Below(o, b, c) ensures r.Some? && Below(o, r.value, c) {
      forall k ensures ResolveAt(o, a, b, k).Keep? {
        assert Lookup(a, k) == Lookup(o, k) || Lookup(a, k) == Lookup(c, k);
      }
      forall k ensures Lookup(r.value, k) == Lookup(o, k) || Lookup(r.value, k) == Lookup(c, k) {
        assert ResolveAt(o, a, b, k) == Keep(Lookup(r.value, k));
      }
    }
    if r.Some? {
      forall k ensures Lookup(a, k) == Lookup(o, k) || Lookup(a, k) == Lookup(r.value, k) {
        assert ResolveAt(o, a, b, k) == Keep(Lookup(r.value, k));
      }
      forall k ensures Lookup(b, k) == Lookup(o, k) || Lookup(b, k) == Lookup(r.value, k) {
        assert ResolveAt(o, a, b, k) == Keep(Lookup(r.value, k));
      }
    }
  }

  /** One half of associativity: a merge on the left bounds all three. */
  lemma JoinLeftToRight(o: Lock, a: Lock, b: Lock, c: Lock)
    requires Join(o, Merge(o, a, b), Some(c)).Some?
    ensures Join(o, Some(a), Merge(o, b, c)) == Join(o, Merge(o, a, b), Some(c))
  {
    var ab := Merge(o, a, b).value;
    var all := Merge(o, ab, c).value;
    MergeIsLeastUpperBound(o, a, b);
    MergeIsLeastUpperBound(o, ab, c);
    BelowTransitive(o, a, ab, all);
    BelowTransitive(o, b, ab, all);
    MergeIsLeastUpperBound(o, b, c);
    var bc := Merge(o, b, c).value;
    MergeIsLeastUpperBound(o, a, bc);
    var all' := Merge(o, a, bc).value;
    BelowTransitive(o, b, bc, all');
    BelowTransitive(o, c, bc, all');
    assert Below(o, ab, all');
    BelowAntisymmetric(o, all, all');
  }

  lemma MergeAssociates(o: Lock, a: Lock, b: Lock, c: Lock)
    ensures Join(o, Merge(o, a, b), Some(c)) == Join(o, Some(a), Merge(o, b, c))
  {
    if Join(o, Merge(o, a, b), Some(c)).Some? {
      JoinLeftToRight(o, a, b, c);
    } else if Join(o, Some(a), Merge(o, b, c)).Some? {
      MergeCommutes(o, b, c);
      MergeCommutes(o, a, Merge(o, c, b).value);
      JoinLeftToRight(o, c, b, a);
      MergeCommutes(o, a, b);
      MergeCommutes(o, c, Merge(o, b, a).value);
    }
  }

  // ---------------------------------------------------------------- any number of branches

  /** Merging branches one after the other onto the base. */
  function Fold(o: Lock, branches: seq<Lock>): Option<Lock> {
    if branches == [] then Some(o)
    else Join(o, Fold(o, branches[..|branches| - 1]), Some(branches[|branches| - 1]))
  }

  ghost predicate UpperBound(o: Lock, branches: seq<Lock>, m: Lock) {
    forall a :: a in branches ==> Below(o, a, m)
  }

  /** No two branches change the same entry to different values. */
  ghost predicate Compatible(o: Lock, branches: seq<Lock>) {
    forall a, b :: a in branches && b in branches ==> forall k :: ResolveAt(o, a, b, k).Keep?
  }

  /** The fold is the least upper bound of the branches, and exists as soon as one does. */
  lemma {:induction false} FoldIsLeastUpperBound(o: Lock, branches: seq<Lock>)
    ensures Fold(o, branches).Some? ==> UpperBound(o, branches, Fold(o, branches).value)
    ensures forall m :: UpperBound(o, branches, m) ==>
              Fold(o, branches).Some? && Below(o, Fold(o, branches).value, m)
  {
    if branches != [] {
      var front, last := branches[..|branches| - 1], branches[|branches| - 1];
      assert branches == front + [last];
      FoldIsLeastUpperBound(o, front);
      if Fold(o, front).Some? {
        var f := Fold(o, front).value;
        MergeIsLeastUpperBound(o, f, last);
        if Fold(o, branches).Some? {
          forall a | a in branches ensures Below(o, a, Fold(o, branches).value) {
            if a in front { BelowTransitive(o, a, f, Fold(o, branches).value); }
          }
        }
      }
      forall m | UpperBound(o, branches, m)
        ensures Fold(o, branches).Some? && Below(o, Fold(o, branches).value, m)
      {
        assert UpperBound(o, front, m) && last in branches;
      }
    }
  }

  /** Folding the same branches in another order gives the same result, or a conflict both times. */
  lemma FoldIgnoresOrder(o: Lock, xs: seq<Lock>, ys: seq<Lock>)
    requires forall a :: a in xs <==> a in ys
    ensures Fold(o, xs) == Fold(o, ys)
  {
    FoldIsLeastUpperBound(o, xs);
    FoldIsLeastUpperBound(o, ys);
    if Fold(o, ys).Some? {
      assert UpperBound(o, xs, Fold(o, ys).value);
    }
    if Fold(o, xs).Some? {
      assert UpperBound(o, ys, Fold(o, xs).value);
      BelowAntisymmetric(o, Fold(o, xs).value, Fold(o, ys).value);
    }
  }

  /** Value of a changed entry among the branches, or the base value. */
  ghost function Agreed(o: Lock, branches: seq<Lock>, k: string): Option<Plain> {
    if exists a :: a in branches && Lookup(a, k) != Lookup(o, k) then
      var a :| a in branches && Lookup(a, k) != Lookup(o, k);
      Lookup(a, k)
    else Lookup(o, k)
  }

  ghost function KeysOf(branches: seq<Lock>): set<string> {
    if branches == [] then {} else KeysOf(branches[..|branches| - 1]) + branches[|branches| - 1].Keys
  }

  lemma {:induction false} KeysOfCovers(branches: seq<Lock>, a: Lock)
    requires a in branches
    ensures a.Keys <= KeysOf(branches)
  {
    var front, last := branches[..|branches| - 1], branches[|branches| - 1];
    assert branches == front + [last];
    if a in front { KeysOfCovers(front, a); }
  }

  /** Any number of branches merge without conflict exactly when no two of them change the same
      entry differently. */
  lemma FoldSucceedsIffCompatible(o: Lock, branches: seq<Lock>)
    ensures Fold(o, branches).Some? <==> Compatible(o, branches)
  {
    FoldIsLeastUpperBound(o, branches);
    if Fold(o, branches).Some? {
      var m := Fold(o, branches).value;
      forall a, b, k | a in branches && b in branches ensures ResolveAt(o, a, b, k).Keep? {
        assert Below(o, a, m) && Below(o, b, m);
        assert Lookup(a, k) == Lookup(o, k) || Lookup(a, k) == Lookup(m, k);
      }
    }
    if Compatible(o, branches) {
      var keys := KeysOf(branches) + o.Keys;
      var m: Lock := map k | k in keys && Agreed(o, branches, k).Some? :: Agreed(o, branches, k).value;
      forall a | a in branches ensures Below(o, a, m) {
        forall k ensures Lookup(a, k) == Lookup(o, k) || Lookup(a, k) == Lookup(m, k) {
          if Lookup(a, k) != Lookup(o, k) {
            var b :| b in branches && Lookup(b, k) != Lookup(o, k) && Agreed(o, branches, k) == Lookup(b, k);
            assert ResolveAt(o, a, b, k).Keep?;
            assert Lookup(a, k) == Agreed(o, branches, k);
            KeysOfCovers(branches, a);
          }
        }
      }
      assert UpperBound(o, branches, m);
    }
  }
}
