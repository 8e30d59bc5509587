/** The bounded walk that decides whether a candidate head is the reviewed commit plus clean
    merges of trusted target history, and what an accepted head can therefore contain. */
module ReviewedMergeChain {
  import opened Wrappers
  import opened GitDag

  const MAX_STEPS := 64

  /** `named` resolves revisions (full identifiers and references), `id` is the hash of a commit,
      `merge` the tree `git merge-tree --write-tree` computes, None on conflict. */
  datatype Repository = Repository(
    named: map<string, Commit>,
    id: Commit -> string,
    merge: (Commit, Commit) -> Option<Tree>)

  ghost predicate Injective(id: Commit -> string)
  {
    forall a, b :: id(a) == id(b) ==> a == b
  }

  ghost predicate Stored(r: Repository, c: Commit)
  {
    && |r.id(c)| == 40
    && r.id(c) in r.named && r.named[r.id(c)] == c
  }

  ghost predicate Complete(r: Repository, revision: string)
    requires revision in r.named
  {
    && Stored(r, r.named[revision])
    && forall i :: 0 <= i < |r.named[revision].parents| ==> Stored(r, r.named[revision].parents[i])
  }

  /** Every resolvable commit is stored under its own identifier, and so are its parents. */
  ghost predicate Valid(r: Repository)
  {
    && Injective(r.id)
    && forall s {:trigger Complete(r, s)} :: s in r.named ==> Complete(r, s)
  }

  /** What one step of the walk demands of `head`: a full identifier of a two-parent commit whose
      second parent is in the target's history and whose tree is the clean merge of its parents. */
  predicate CleanMerge(r: Repository, target: string, head: string)
  {
    && head in r.named && r.id(r.named[head]) == head
    && |r.named[head].parents| == 2
    && target in r.named && Ancestor(r.named[head].parents[1], r.named[target])
    && r.merge(r.named[head].parents[0], r.named[head].parents[1]) == Some(r.named[head].tree)
  }

  function Previous(r: Repository, head: string): string
    requires head in r.named && |r.named[head].parents| == 2
  {
    r.id(r.named[head].parents[0])
  }

  /** `n` clean-merge steps lead from `head` to `reviewed`. */
  predicate Chain(r: Repository, target: string, head: string, reviewed: string, n: nat)
    decreases n
  {
    if n == 0 then head == reviewed
    else CleanMerge(r, target, head) && Chain(r, target, Previous(r, head), reviewed, n - 1)
  }

  /** The git commands of one iteration, in order; any of them may be unavailable. */
  datatype Command = RevList | IsAncestor | MergeTree | RevParse

  predicate CommandsWork(works: (nat, Command) -> bool, i: nat)
  {
    works(i, RevList) && works(i, IsAncestor) && works(i, MergeTree) && works(i, RevParse)
  }

  predicate Available(works: (nat, Command) -> bool, n: nat)
  {
    forall i :: 0 <= i < n ==> CommandsWork(works, i)
  }

  predicate FullLength(target: string, head: string, reviewed: string)
  {
    |target| == 40 && |head| == 40 && |reviewed| == 40
  }

  lemma {:induction false} ChainSplits(r: Repository, target: string, head: string, reviewed: string, n: nat, m: nat,
                                       mid: string)
    requires Chain(r, target, head, mid, m)
    ensures m <= n ==> (Chain(r, target, head, reviewed, n) <==> Chain(r, target, mid, reviewed, n - m))
    decreases m
  {
    if m > 0 && m <= n {
      ChainSplits(r, target, Previous(r, head), reviewed, n - 1, m - 1, mid);
    }
  }

  lemma {:induction false} ChainExtends(r: Repository, target: string, head: string, mid: string, n: nat)
    requires Chain(r, target, head, mid, n) && CleanMerge(r, target, mid)
    ensures Chain(r, target, head, Previous(r, mid), n + 1)
    decreases n
  {
    if n > 0 {
      ChainExtends(r, target, Previous(r, head), mid, n - 1);
    }
  }

  lemma NotYet(r: Repository, target: string, head: string, reviewed: string, i: nat, at: string)
    requires Chain(r, target, head, at, i) && at != reviewed
    requires forall n: nat :: n < i ==> !Chain(r, target, head, reviewed, n)
    ensures forall n: nat :: n <= i ==> !Chain(r, target, head, reviewed, n)
  {
    ChainSplits(r, target, head, reviewed, i, i, at);
  }

  lemma StuckForEver(r: Repository, target: string, head: string, reviewed: string, i: nat, at: string)
    requires Chain(r, target, head, at, i) && !CleanMerge(r, target, at)
    ensures forall n: nat :: i < n ==> !Chain(r, target, head, reviewed, n)
  {
    forall n: nat | i < n
      ensures !Chain(r, target, head, reviewed, n)
    {
      ChainSplits(r, target, head, reviewed, n, i, at);
    }
  }

  ghost predicate Reaches(r: Repository, target: string, head: string, reviewed: string, works: (nat, Command) -> bool)
  {
    exists n: nat :: n < MAX_STEPS && Chain(r, target, head, reviewed, n) && Available(works, n)
  }

  /** One iteration's checks on `at`, command by command. */
  method Inspect(r: Repository, target: string, at: string, works: (nat, Command) -> bool, i: nat)
    returns (next: Option<string>)
    ensures next.Some? <==> CleanMerge(r, target, at) && CommandsWork(works, i)
    ensures next.Some? ==> next.value == Previous(r, at)
  {
    if !works(i, RevList) || at !in r.named || |r.named[at].parents| != 2 { return None; }
    var commit := r.named[at];
    if r.id(commit) != at { return None; }
    if !works(i, IsAncestor) || target !in r.named || !Ancestor(commit.parents[1], r.named[target]) { return None; }
    var expected := r.merge(commit.parents[0], commit.parents[1]);
    if !works(i, MergeTree) || expected.None? || !works(i, RevParse) { return None; }
    if expected.value != commit.tree { return None; }
    return Some(r.id(commit.parents[0]));
  }

  /** The walk accepts exactly when 0 to 63 clean-merge steps lead to the reviewed commit and
      the commands needed to follow them are available. */
  method Trusted(r: Repository, target: string, head: string, reviewed: string, works: (nat, Command) -> bool)
    returns (trusted: bool)
    requires Valid(r)
    ensures trusted <==> FullLength(target, head, reviewed) && Reaches(r, target, head, reviewed, works)
    ensures trusted <==>
      && |target| == 40 && |head| == 40 && |reviewed| == 40
      && exists n: nat :: n <= 63 && Chain(r, target, head, reviewed, n) && Available(works, n)
  {
    if !FullLength(target, head, reviewed) { return false; }
    var at := head;
    for i := 0 to MAX_STEPS
      invariant Chain(r, target, head, at, i) && Available(works, i)
      invariant forall n: nat :: n < i ==> !Chain(r, target, head, reviewed, n)
    {
      if at == reviewed { return true; }
      NotYet(r, target, head, reviewed, i, at);
      var next := Inspect(r, target, at, works, i);
      if next.None? {
        if !CleanMerge(r, target, at) { StuckForEver(r, target, head, reviewed, i, at); }
        return false;
      }
      ChainExtends(r, target, head, at, i);
      at := next.value;
    }
    return false;
  }

  // ---------- what acceptance means ----------

  /** The merges a chain steps through, newest first. */
  function Merges(r: Repository, target: string, head: string, reviewed: string, n: nat): (ms: seq<Commit>)
    requires Chain(r, target, head, reviewed, n)
    ensures |ms| == n
    decreases n
  {
    if n == 0 then [] else [r.named[head]] + Merges(r, target, Previous(r, head), reviewed, n - 1)
  }

  predicate TrustedMerge(r: Repository, target: string, c: Commit)
  {
    && |c.parents| == 2
    && target in r.named && Ancestor(c.parents[1], r.named[target])
    && r.merge(c.parents[0], c.parents[1]) == Some(c.tree)
  }

  /** An accepted head brings in nothing new: every commit reachable from it is reachable from
      the reviewed commit, reachable from the target, or one of the clean chain merges. */
  lemma {:induction false} AcceptedHistory(r: Repository, target: string, head: string, reviewed: string, n: nat,
                                           c: Commit)
    requires Valid(r) && Chain(r, target, head, reviewed, n)
    requires head in r.named && Ancestor(c, r.named[head])
    ensures reviewed in r.named
    ensures || Ancestor(c, r.named[reviewed])
            || (target in r.named && Ancestor(c, r.named[target]))
            || (c in Merges(r, target, head, reviewed, n) && TrustedMerge(r, target, c))
    decreases n
  {
    if n > 0 {
      var commit := r.named[head];
      assert Complete(r, head);
      if c == commit {
        AcceptedHistory(r, target, Previous(r, head), reviewed, n - 1, commit.parents[0]);
      } else {
        var i :| 0 <= i < |commit.parents| && Ancestor(c, commit.parents[i]);
        if i == 0 {
          AcceptedHistory(r, target, Previous(r, head), reviewed, n - 1, c);
        } else {
          AncestorTransitive(c, commit.parents[1], r.named[target]);
          AcceptedHistory(r, target, Previous(r, head), reviewed, n - 1, commit.parents[0]);
        }
      }
    }
  }

  lemma {:induction false} ChainDescends(r: Repository, target: string, head: string, reviewed: string, n: nat)
    requires Valid(r) && Chain(r, target, head, reviewed, n) && head in r.named
    ensures reviewed in r.named && Ancestor(r.named[reviewed], r.named[head])
    ensures Height(r.named[reviewed]) + n <= Height(r.named[head])
    decreases n
  {
    if n > 0 {
      var commit := r.named[head];
      assert Complete(r, head);
      ChainDescends(r, target, Previous(r, head), reviewed, n - 1);
      AncestorTransitive(r.named[reviewed], commit.parents[0], commit);
    }
  }

  lemma NoShorterChain(r: Repository, target: string, head: string, reviewed: string, m: nat, n: nat)
    requires Valid(r) && Chain(r, target, head, reviewed, m) && Chain(r, target, head, reviewed, n)
    requires head in r.named
    ensures n <= m
  {
    if m < n {
      ChainSplits(r, target, head, reviewed, n, m, reviewed);
      ChainDescends(r, target, head, reviewed, m);
      ChainDescends(r, target, reviewed, reviewed, n - m);
    }
  }

  /** The number of steps is determined by the commits, so a chain of 64 or more is refused
      even though every one of its merges is clean. */
  lemma LongChainRefused(r: Repository, target: string, head: string, reviewed: string, n: nat,
                         works: (nat, Command) -> bool)
    requires Valid(r) && Chain(r, target, head, reviewed, n) && head in r.named
    requires MAX_STEPS <= n
    ensures !Reaches(r, target, head, reviewed, works)
  {
    forall m: nat | m < MAX_STEPS && Chain(r, target, head, reviewed, m)
      ensures false
    {
      NoShorterChain(r, target, head, reviewed, m, n);
    }
  }
}
