/** Vocabulary shared by the other modules: options, duplicate-free sequences, counting. */
module Prelude {

  datatype Option<+T> = None | Some(value: T)

  ghost predicate NoDup<T>(s: seq<T>) {
    forall i, j :: 0 <= i < j < |s| ==> s[i] != s[j]
  }

  /** `s` lists every element of `all` exactly once, in some order. */
  ghost predicate Enumerates<T(!new)>(s: seq<T>, all: set<T>) {
    NoDup(s) && forall x :: x in s <==> x in all
  }

  /** Value under a key, absence being a value too. */
  function Lookup<K, V>(m: map<K, V>, k: K): Option<V> {
    if k in m then Some(m[k]) else None
  }

  predicate StartsWith(s: string, prefix: string) {
    |prefix| <= |s| && s[..|prefix|] == prefix
  }

  predicate Contains(s: string, part: string) {
    exists i :: 0 <= i <= |s| && StartsWith(s[i..], part)
  }

  /** Python's whitespace. */
  predicate IsSpace(c: char) {
    var u := c as int;
    || 9 <= u <= 13 || 28 <= u <= 32 || u == 0x85 || u == 0xA0 || u == 0x1680
    || 0x2000 <= u <= 0x200A || u == 0x2028 || u == 0x2029 || u == 0x202F || u == 0x205F || u == 0x3000
  }

  function RStrip(s: string): string {
    if s != [] && IsSpace(s[|s| - 1]) then RStrip(s[..|s| - 1]) else s
  }

  function LStrip(s: string): string {
    if s != [] && IsSpace(s[0]) then LStrip(s[1..]) else s
  }

  function Strip(s: string): string {
    LStrip(RStrip(s))
  }

  lemma {:induction false} RStripDropsSpace(s: string) returns (b: string)
    ensures s == RStrip(s) + b && forall i :: 0 <= i < |b| ==> IsSpace(b[i])
    ensures RStrip(s) != "" ==> !IsSpace(RStrip(s)[|RStrip(s)| - 1])
  {
    if s != "" && IsSpace(s[|s| - 1]) {
      b := RStripDropsSpace(s[..|s| - 1]);
      b := b + [s[|s| - 1]];
    } else {
      b := "";
    }
  }

  lemma {:induction false} LStripDropsSpace(s: string) returns (a: string)
    ensures s == a + LStrip(s) && forall i :: 0 <= i < |a| ==> IsSpace(a[i])
    ensures LStrip(s) != "" ==> !IsSpace(LStrip(s)[0])
  {
    if s != "" && IsSpace(s[0]) {
      a := LStripDropsSpace(s[1..]);
      a := [s[0]] + a;
    } else {
      a := "";
    }
  }

  /** Stripping takes the whitespace around a text, all of it and nothing else. */
  lemma StripExactly(s: string) returns (a: string, b: string)
    ensures s == a + Strip(s) + b
    ensures (forall i :: 0 <= i < |a| ==> IsSpace(a[i])) && (forall i :: 0 <= i < |b| ==> IsSpace(b[i]))
    ensures Strip(s) != "" ==> !IsSpace(Strip(s)[0]) && !IsSpace(Strip(s)[|Strip(s)| - 1])
  {
    b := RStripDropsSpace(s);
    a := LStripDropsSpace(RStrip(s));
    assert Strip(s) != "" ==> Strip(s)[|Strip(s)| - 1] == RStrip(s)[|RStrip(s)| - 1];
  }

  /** A duplicate-free sequence over a finite set is no longer than the set. */
  lemma {:induction false} NoDupFits<T>(s: seq<T>, all: set<T>)
    requires NoDup(s)
    requires forall x :: x in s ==> x in all
    ensures |s| <= |all|
  {
    if s != [] {
      var last := s[|s| - 1];
      var front := s[..|s| - 1];
      forall x | x in front ensures x in all - {last} {
        var i :| 0 <= i < |front| && front[i] == x;
        assert s[i] == x;
      }
      NoDupFits(front, all - {last});
    }
  }

  /** Pigeonhole: a sequence longer than the set it draws from repeats an element. */
  lemma Pigeonhole<T>(s: seq<T>, all: set<T>) returns (i: nat, j: nat)
    requires forall x :: x in s ==> x in all
    requires |s| > |all|
    ensures i < j < |s| && s[i] == s[j]
  {
    if NoDup(s) {
      NoDupFits(s, all);
      assert false;
    }
    i, j :| 0 <= i < j < |s| && s[i] == s[j];
  }
}
