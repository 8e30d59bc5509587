/** Git as the scripts use it: commits with parents and a tree. Commits are compared by
    content, so a commit identifier stands for the commit itself (hashes are injective). */
module GitDag {

  type Path = string
  type Bytes = string
  type Tree = map<Path, Bytes>

  /** `stamp` is everything else that is hashed: author, dates, message. */
  datatype Commit = Commit(parents: seq<Commit>, tree: Tree, stamp: nat)

  /** `git merge-base --is-ancestor a c`; every commit is its own ancestor. */
  predicate Ancestor(a: Commit, c: Commit)
    decreases c
  {
    a == c || exists i :: 0 <= i < |c.parents| && Ancestor(a, c.parents[i])
  }

  /** From one commit to another, each the parent of the next. */
  predicate Lineage(cs: seq<Commit>, a: Commit, c: Commit)
  {
    && cs != [] && cs[0] == a && cs[|cs| - 1] == c
    && forall i :: 0 < i < |cs| ==> cs[i - 1] in cs[i].parents
  }

  /** The ancestors are exactly what the parents lead to, a commit itself included. */
  lemma {:induction false} AncestorExactly(a: Commit, c: Commit)
    ensures Ancestor(a, c) <==> exists cs :: Lineage(cs, a, c)
    decreases c
  {
    if a == c { assert Lineage([a], a, c); }
    forall i | 0 <= i < |c.parents| && Ancestor(a, c.parents[i]) ensures exists cs :: Lineage(cs, a, c) {
      AncestorExactly(a, c.parents[i]);
      var cs :| Lineage(cs, a, c.parents[i]);
      assert c.parents[i] in c.parents;
      assert Lineage(cs + [c], a, c);
    }
    forall cs | Lineage(cs, a, c) ensures Ancestor(a, c) {
      if |cs| > 1 {
        var n := |cs| - 1;
        var i :| 0 <= i < |c.parents| && c.parents[i] == cs[n - 1];
        assert Lineage(cs[..n], a, c.parents[i]);
        AncestorExactly(a, c.parents[i]);
      }
    }
  }

  ghost function Height(c: Commit): nat
    decreases c
  {
    1 + MaxHeight(c.parents)
  }

  ghost function MaxHeight(cs: seq<Commit>): (h: nat)
    ensures forall i :: 0 <= i < |cs| ==> Height(cs[i]) <= h
    decreases cs
  {
    if cs == [] then 0
    else
      var rest := MaxHeight(cs[1..]);
      assert forall i :: 1 <= i < |cs| ==> cs[i] == cs[1..][i - 1];
      if Height(cs[0]) > rest then Height(cs[0]) else rest
  }

  lemma {:induction false} AncestorTransitive(a: Commit, b: Commit, c: Commit)
    requires Ancestor(a, b) && Ancestor(b, c)
    ensures Ancestor(a, c)
    decreases c
  {
    if b != c {
      var i :| 0 <= i < |c.parents| && Ancestor(b, c.parents[i]);
      AncestorTransitive(a, b, c.parents[i]);
    }
  }

  lemma {:induction false} AncestorIsLower(a: Commit, c: Commit)
    requires Ancestor(a, c)
    ensures a == c || Height(a) < Height(c)
    decreases c
  {
    if a != c {
      var i :| 0 <= i < |c.parents| && Ancestor(a, c.parents[i]);
      AncestorIsLower(a, c.parents[i]);
    }
  }

  /** History has no cycles: two commits that are ancestors of each other are one commit. */
  lemma AncestorAntisymmetric(a: Commit, b: Commit)
    requires Ancestor(a, b) && Ancestor(b, a)
    ensures a == b
  {
    AncestorIsLower(a, b);
    AncestorIsLower(b, a);
  }

  /** The proper ancestors of a one-parent commit are the ancestors of that parent. */
  lemma AncestorOfChild(a: Commit, c: Commit)
    requires |c.parents| == 1 && Ancestor(a, c) && a != c
    ensures Ancestor(a, c.parents[0])
  {
  }

  /** `git diff-tree --no-commit-id --name-only -r c`: the paths a one-parent commit changes.
      For a root commit and for a merge the command prints nothing. */
  function DiffNames(c: Commit): set<Path>
  {
    if |c.parents| != 1 then {}
    else
      var before := c.parents[0].tree;
      set p | p in before.Keys + c.tree.Keys
              && (p !in before || p !in c.tree || before[p] != c.tree[p])
  }
}
