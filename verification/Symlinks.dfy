/** traverseSymlink: following symbolic links with a cycle detector. */
module Symlinks {
  type File = int

  datatype Outcome = Found(file: File) | DoesNotExist | LoopExists

  datatype Option<T> = None | Some(value: T)

  /** The links of a finite set of files: a link leads to another file, or nowhere. */
  datatype Links = Links(files: set<File>, next: map<File, Option<File>>)

  ghost predicate Closed(g: Links) {
    && g.next.Keys <= g.files
    && forall f :: f in g.next && g.next[f].Some? ==> g.next[f].value in g.files
  }

  predicate IsSymlink(g: Links, f: File) {
    f in g.next
  }

  /** The file that k links lead to, if all of them exist. */
  ghost function Chain(g: Links, start: Option<File>, k: nat): Option<File> {
    if k == 0 then start
    else match Chain(g, start, k - 1)
      case None => None
      case Some(f) => if f in g.next then g.next[f] else None
  }

  /** All of the first k files of the chain are links. */
  ghost predicate LinksUpTo(g: Links, start: Option<File>, k: nat) {
    forall i: nat {:trigger Chain(g, start, i)} :: i < k ==> Chain(g, start, i).Some? && IsSymlink(g, Chain(g, start, i).value)
  }

  /** The chain ends at a file that is not a link. */
  ghost predicate EndsAt(g: Links, start: Option<File>, f: File) {
    !IsSymlink(g, f) && exists k: nat :: LinksUpTo(g, start, k) && Chain(g, start, k) == Some(f)
  }

  /** The chain ends at a link that leads nowhere, or does not start. */
  ghost predicate Dangles(g: Links, start: Option<File>) {
    exists k: nat :: LinksUpTo(g, start, k) && Chain(g, start, k) == None
  }

  /** The chain never ends. */
  ghost predicate Endless(g: Links, start: Option<File>) {
    forall k: nat :: LinksUpTo(g, start, k)
  }

  // ---------- the three outcomes exclude each other ----------

  lemma EndAt(g: Links, start: Option<File>, k: nat, j: nat)
    requires LinksUpTo(g, start, k) && LinksUpTo(g, start, j)
    requires !(Chain(g, start, k).Some? && IsSymlink(g, Chain(g, start, k).value))
    requires !(Chain(g, start, j).Some? && IsSymlink(g, Chain(g, start, j).value))
    ensures k == j
  {
  }

  /** There is at most one end, and a chain that ends neither dangles nor goes on forever. */
  lemma OneOutcome(g: Links, start: Option<File>, f: File)
    requires EndsAt(g, start, f)
    ensures !Dangles(g, start) && !Endless(g, start) && forall f' :: EndsAt(g, start, f') ==> f' == f
  {
    hide LinksUpTo;
    var k: nat :| LinksUpTo(g, start, k) && Chain(g, start, k) == Some(f);
    forall j: nat | LinksUpTo(g, start, j) && !(Chain(g, start, j).Some? && IsSymlink(g, Chain(g, start, j).value)) ensures j == k {
      EndAt(g, start, k, j);
    }
    NotEndless(g, start, k);
  }

  lemma NotEndless(g: Links, start: Option<File>, k: nat)
    requires !(Chain(g, start, k).Some? && IsSymlink(g, Chain(g, start, k).value))
    ensures !Endless(g, start)
  {
    assert !LinksUpTo(g, start, k + 1);
  }

  lemma DanglesNotEndless(g: Links, start: Option<File>)
    requires Dangles(g, start)
    ensures !Endless(g, start)
  {
    hide LinksUpTo;
    var k: nat :| LinksUpTo(g, start, k) && Chain(g, start, k) == None;
    NotEndless(g, start, k);
  }

  /** Two places of the chain that agree go on to agree. */
  lemma {:induction false} SameFurther(g: Links, start: Option<File>, i: nat, j: nat, d: nat)
    requires Chain(g, start, i) == Chain(g, start, j)
    ensures Chain(g, start, i + d) == Chain(g, start, j + d)
  {
    if d > 0 {
      SameFurther(g, start, i, j, d - 1);
      assert Chain(g, start, i + d) == Chain(g, start, i + (d - 1) + 1);
    }
  }

  /** A chain that comes back to a link it has passed never ends. */
  lemma {:induction false} RepeatIsEndless(g: Links, start: Option<File>, i: nat, j: nat, k: nat)
    requires i < j && LinksUpTo(g, start, j) && Chain(g, start, i) == Chain(g, start, j)
    ensures LinksUpTo(g, start, k)
    decreases k
  {
    if k > 0 {
      RepeatIsEndless(g, start, i, j, k - 1);
      var m := k - 1;
      if m >= j {
        SameFurther(g, start, i, j, m - j);
        assert i + (m - j) < m;
      }
    }
  }

  // ---------- the code ----------

  /** What the loop knows: the files it has been led to are those in loopDetect. */
  ghost predicate Passed(g: Links, start: Option<File>, seen: set<File>, k: nat) {
    && (forall f :: f in seen ==> exists i: nat {:trigger Chain(g, start, i)} :: 1 <= i <= k && Chain(g, start, i) == Some(f))
    && (forall i: nat {:trigger Chain(g, start, i)} :: 1 <= i <= k ==> Chain(g, start, i).Some? && Chain(g, start, i).value in seen)
  }

  /**
   * traverseSymlink ends on every finite graph, although the first file is not entered in
   * loopDetect, and each of its outcomes says what the chain of links does.
   */
  method TraverseSymlink(g: Links, start: Option<File>) returns (r: Outcome)
    requires Closed(g) && (start.Some? ==> start.value in g.files)
    ensures r.Found? ==> EndsAt(g, start, r.file)
    ensures r == DoesNotExist <==> Dangles(g, start)
    ensures r == LoopExists <==> Endless(g, start)
    ensures forall f :: EndsAt(g, start, f) ==> r == Found(f)
  {
    hide EndsAt, Dangles, Endless;
    if start == None {
      NothingFollows(g, start, 0);
      return DoesNotExist;
    }
    var file := start.value;
    var loopDetect: set<File> := {};
    ghost var k := 0;
    while IsSymlink(g, file)
      invariant file in g.files && Chain(g, start, k) == Some(file) && loopDetect <= g.files
      invariant LinksUpTo(g, start, k) && Passed(g, start, loopDetect, k)
      decreases |g.files - loopDetect|
    {
      var next := g.next[file];
      assert Chain(g, start, k + 1) == next;
      if next == None {
        NothingFollows(g, start, k + 1);
        return DoesNotExist;
      }
      file := next.value;
      if file in loopDetect {
        ghost var i: nat :| 1 <= i <= k && Chain(g, start, i) == Some(file);
        GoesOn(g, start, i, k + 1);
        return LoopExists;
      }
      assert g.files - (loopDetect + {file}) < g.files - loopDetect;
      loopDetect := loopDetect + {file};
      k := k + 1;
    }
    EndFound(g, start, file, k);
    return Found(file);
  }

  lemma NothingFollows(g: Links, start: Option<File>, k: nat)
    requires LinksUpTo(g, start, k) && Chain(g, start, k) == None
    ensures Dangles(g, start) && !Endless(g, start) && forall f :: !EndsAt(g, start, f)
  {
    hide LinksUpTo, EndsAt, Endless;
    DanglesNotEndless(g, start);
    forall f ensures !EndsAt(g, start, f) {
      if EndsAt(g, start, f) { OneOutcome(g, start, f); }
    }
  }

  lemma EndFound(g: Links, start: Option<File>, f: File, k: nat)
    requires LinksUpTo(g, start, k) && Chain(g, start, k) == Some(f) && !IsSymlink(g, f)
    ensures EndsAt(g, start, f) && !Dangles(g, start) && !Endless(g, start)
    ensures forall f' :: EndsAt(g, start, f') ==> f' == f
  {
    OneOutcome(g, start, f);
  }

  lemma GoesOn(g: Links, start: Option<File>, i: nat, j: nat)
    requires i < j && LinksUpTo(g, start, j) && Chain(g, start, i) == Chain(g, start, j)
    ensures Endless(g, start) && !Dangles(g, start) && forall f :: !EndsAt(g, start, f)
  {
    hide LinksUpTo, EndsAt, Dangles;
    forall k: nat ensures LinksUpTo(g, start, k) {
      RepeatIsEndless(g, start, i, j, k);
    }
    if Dangles(g, start) { DanglesNotEndless(g, start); }
    forall f ensures !EndsAt(g, start, f) {
      if EndsAt(g, start, f) { OneOutcome(g, start, f); }
    }
  }
}
