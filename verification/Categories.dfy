/**
 * The category tree: parents as a map, the bounded walk that looks for a
 * cycle before a category is moved, and the tree that accepted requests keep.
 * A category id stands for a UUID.
 */
module Categories {
  import opened Wrappers

  type CategoryId = nat

  type Parents = map<CategoryId, Option<CategoryId>>

  const MAX_DEPTH := 32

  datatype Op = Create(id: CategoryId, under: Option<CategoryId>) | Move(moved: CategoryId, to: Option<CategoryId>)

  function ParentOf(parents: Parents, c: CategoryId): Option<CategoryId> {
    if c in parents then parents[c] else None
  }

  /** The k-th category on the way up; None is past the root. */
  function Up(parents: Parents, c: Option<CategoryId>, k: nat): Option<CategoryId>
    decreases k
  {
    if k == 0 || c.None? then c else Up(parents, ParentOf(parents, c.value), k - 1)
  }

  /** Whether the first n categories on the way up include the id. */
  predicate Meets(parents: Parents, id: CategoryId, c: Option<CategoryId>, n: nat)
    decreases n
  {
    n > 0 && c.Some? && (c.value == id || Meets(parents, id, ParentOf(parents, c.value), n - 1))
  }

  /** The walk as it is written. */
  method IsCategoryCycle(parents: Parents, id: CategoryId, parentId: CategoryId) returns (cycle: bool)
    ensures cycle == Meets(parents, id, Some(parentId), MAX_DEPTH)
  {
    var current := Some(parentId);
    var depth := 0;
    while current != None && depth < MAX_DEPTH
      invariant 0 <= depth <= MAX_DEPTH
      invariant Meets(parents, id, Some(parentId), MAX_DEPTH) == Meets(parents, id, current, MAX_DEPTH - depth)
      decreases MAX_DEPTH - depth
    {
      if current.value == id {
        return true;
      }
      current := ParentOf(parents, current.value);
      depth := depth + 1;
    }
    return false;
  }

  /** The category is c or one of its ancestors, at any distance. */
  ghost predicate IsSelfOrAncestor(parents: Parents, id: CategoryId, c: Option<CategoryId>) {
    exists k: nat :: Up(parents, c, k) == Some(id)
  }

  /** Where the walk meets the id. */
  lemma {:induction false} MeetingPlace(parents: Parents, id: CategoryId, c: Option<CategoryId>, n: nat)
    returns (k: nat)
    requires Meets(parents, id, c, n)
    ensures k < n && Up(parents, c, k) == Some(id)
    decreases n
  {
    k := 0;
    if c.value != id {
      var j := MeetingPlace(parents, id, ParentOf(parents, c.value), n - 1);
      k := j + 1;
    }
  }

  lemma {:induction false} MeetsAt(parents: Parents, id: CategoryId, c: Option<CategoryId>, n: nat, k: nat)
    requires k < n && Up(parents, c, k) == Some(id)
    ensures Meets(parents, id, c, n)
    decreases k
  {
    if k > 0 {
      MeetsAt(parents, id, ParentOf(parents, c.value), n - 1, k - 1);
    }
  }

  lemma MeetsExactly(parents: Parents, id: CategoryId, c: Option<CategoryId>, n: nat)
    ensures Meets(parents, id, c, n) <==> exists k: nat :: k < n && Up(parents, c, k) == Some(id)
  {
    if Meets(parents, id, c, n) {
      var k := MeetingPlace(parents, id, c, n);
      assert k < n && Up(parents, c, k) == Some(id);
    } else if exists k: nat :: k < n && Up(parents, c, k) == Some(id) {
      var k: nat :| k < n && Up(parents, c, k) == Some(id);
      MeetsAt(parents, id, c, n, k);
    }
  }

  lemma {:induction false} UpAdds(parents: Parents, c: Option<CategoryId>, i: nat, j: nat)
    ensures Up(parents, c, i + j) == Up(parents, Up(parents, c, i), j)
    decreases i
  {
    if i > 0 && c.Some? {
      UpAdds(parents, ParentOf(parents, c.value), i - 1, j);
    }
  }

  lemma PastTheRoot(parents: Parents, c: Option<CategoryId>, i: nat, j: nat)
    requires i <= j && Up(parents, c, i).None?
    ensures Up(parents, c, j).None?
  {
    UpAdds(parents, c, i, j - i);
  }

  /**
   * The walk finds the id exactly among the first 32 categories; so on a chain
   * of at most 32 categories it decides whether the id is the proposed parent
   * or one of its ancestors.
   */
  lemma WalkDecidesShortChains(parents: Parents, id: CategoryId, parentId: CategoryId)
    requires Up(parents, Some(parentId), MAX_DEPTH).None?
    ensures Meets(parents, id, Some(parentId), MAX_DEPTH) <==> IsSelfOrAncestor(parents, id, Some(parentId))
  {
    MeetsExactly(parents, id, Some(parentId), MAX_DEPTH);
    if IsSelfOrAncestor(parents, id, Some(parentId)) {
      var k: nat :| Up(parents, Some(parentId), k) == Some(id);
      if k >= MAX_DEPTH { PastTheRoot(parents, Some(parentId), MAX_DEPTH, k); }
      MeetsAt(parents, id, Some(parentId), MAX_DEPTH, k);
    }
  }

  // ----- trees -----

  /** The way up from c ends. */
  ghost predicate Rooted(parents: Parents, c: Option<CategoryId>) {
    exists k: nat :: Up(parents, c, k).None?
  }

  ghost predicate Acyclic(parents: Parents) {
    forall c :: c in parents ==> Rooted(parents, Some(c))
  }

  /** Every parent is a category. */
  predicate Closed(parents: Parents) {
    forall c :: c in parents && parents[c].Some? ==> parents[c].value in parents
  }

  /** On the way to an id that is not met, moving that id changes nothing. */
  lemma {:induction false} ElsewhereUnchanged(parents: Parents, id: CategoryId, to: Option<CategoryId>,
                                              c: Option<CategoryId>, k: nat)
    requires forall i: nat :: i < k ==> Up(parents, c, i) != Some(id)
    ensures Up(parents[id := to], c, k) == Up(parents, c, k)
    decreases k
  {
    if k > 0 && c.Some? {
      assert Up(parents, c, 0) != Some(id);
      var up := ParentOf(parents, c.value);
      forall i: nat | i < k - 1
        ensures Up(parents, up, i) != Some(id)
      {
        assert Up(parents, c, i + 1) == Up(parents, up, i);
      }
      ElsewhereUnchanged(parents, id, to, up, k - 1);
    }
  }

  /** The first meeting with the id, if it is met at all. */
  lemma {:induction false} FirstMeeting(parents: Parents, id: CategoryId, c: Option<CategoryId>, k: nat)
    returns (j: nat)
    requires Up(parents, c, k) == Some(id)
    ensures j <= k && Up(parents, c, j) == Some(id) && forall i: nat :: i < j ==> Up(parents, c, i) != Some(id)
    decreases k
  {
    if exists i: nat :: i < k && Up(parents, c, i) == Some(id) {
      var i: nat :| i < k && Up(parents, c, i) == Some(id);
      j := FirstMeeting(parents, id, c, i);
    } else {
      j := k;
    }
  }

  /** Above a category that is not below the id, the move is not noticed. */
  lemma RootedAbove(parents: Parents, id: CategoryId, to: Option<CategoryId>, c: Option<CategoryId>)
    requires Rooted(parents, c) && !IsSelfOrAncestor(parents, id, c)
    ensures Rooted(parents[id := to], c)
  {
    var k: nat :| Up(parents, c, k).None?;
    ElsewhereUnchanged(parents, id, to, c, k);
  }

  lemma RootedMoved(parents: Parents, id: CategoryId, to: Option<CategoryId>)
    requires Rooted(parents[id := to], to)
    ensures Rooted(parents[id := to], Some(id))
  {
    var moved := parents[id := to];
    var k: nat :| Up(moved, to, k).None?;
    assert Up(moved, Some(id), k + 1) == Up(moved, to, k);
  }

  lemma RootedBelow(parents: Parents, id: CategoryId, to: Option<CategoryId>, c: Option<CategoryId>)
    requires Rooted(parents[id := to], Some(id)) && IsSelfOrAncestor(parents, id, c)
    ensures Rooted(parents[id := to], c)
  {
    var moved := parents[id := to];
    var k: nat :| Up(parents, c, k) == Some(id);
    var j := FirstMeeting(parents, id, c, k);
    ElsewhereUnchanged(parents, id, to, c, j);
    var m: nat :| Up(moved, Some(id), m).None?;
    UpAdds(moved, c, j, m);
    assert Up(moved, c, j + m).None?;
  }

  /** Going round: from the id the way up comes back to it again and again. */
  lemma {:induction false} RoundAndRound(parents: Parents, id: CategoryId, round: nat, k: nat)
    requires round > 0 && Up(parents, Some(id), round) == Some(id)
    ensures Up(parents, Some(id), k).Some?
    decreases k
  {
    if k < round {
      if Up(parents, Some(id), k).None? { PastTheRoot(parents, Some(id), k, round); }
    } else {
      RoundAndRound(parents, id, round, k - round);
      UpAdds(parents, Some(id), round, k - round);
    }
  }

  lemma CycleIsNotRooted(parents: Parents, id: CategoryId, p: CategoryId)
    requires IsSelfOrAncestor(parents, id, Some(p))
    ensures !Rooted(parents[id := Some(p)], Some(id))
  {
    var moved := parents[id := Some(p)];
    var k: nat :| Up(parents, Some(p), k) == Some(id);
    var j := FirstMeeting(parents, id, Some(p), k);
    ElsewhereUnchanged(parents, id, Some(p), Some(p), j);
    assert Up(moved, Some(id), j + 1) == Up(moved, Some(p), j);
    forall m: nat
      ensures Up(moved, Some(id), m).Some?
    {
      RoundAndRound(moved, id, j + 1, m);
    }
  }

  /** Moving a category of a tree keeps a tree exactly when it is neither the new parent nor one of its ancestors. */
  lemma MoveKeepsTreeExactly(parents: Parents, id: CategoryId, p: CategoryId)
    requires Acyclic(parents) && id in parents && p in parents
    ensures Acyclic(parents[id := Some(p)]) <==> !IsSelfOrAncestor(parents, id, Some(p))
  {
    var moved := parents[id := Some(p)];
    if IsSelfOrAncestor(parents, id, Some(p)) {
      CycleIsNotRooted(parents, id, p);
    } else {
      RootedAbove(parents, id, Some(p), Some(p));
      RootedMoved(parents, id, Some(p));
      forall c | c in moved
        ensures Rooted(moved, Some(c))
      {
        if IsSelfOrAncestor(parents, id, Some(c)) {
          RootedBelow(parents, id, Some(p), Some(c));
        } else {
          RootedAbove(parents, id, Some(p), Some(c));
        }
      }
    }
  }

  lemma LooseKeepsTree(parents: Parents, id: CategoryId)
    requires Acyclic(parents) && id in parents
    ensures Acyclic(parents[id := None])
  {
    var moved := parents[id := None];
    assert Up(moved, None, 0).None?;
    RootedMoved(parents, id, None);
    forall c | c in moved
      ensures Rooted(moved, Some(c))
    {
      if IsSelfOrAncestor(parents, id, Some(c)) {
        RootedBelow(parents, id, None, Some(c));
      } else {
        RootedAbove(parents, id, None, Some(c));
      }
    }
  }

  /** Nothing is below an id that is not a category. */
  lemma {:induction false} NewIdIsNobodysAncestor(parents: Parents, id: CategoryId, c: Option<CategoryId>, k: nat)
    requires Closed(parents) && id !in parents && (c.Some? ==> c.value in parents)
    ensures Up(parents, c, k) != Some(id)
    decreases k
  {
    if k > 0 && c.Some? {
      NewIdIsNobodysAncestor(parents, id, ParentOf(parents, c.value), k - 1);
    }
  }

  lemma CreateKeepsTree(parents: Parents, id: CategoryId, under: Option<CategoryId>)
    requires Acyclic(parents) && Closed(parents) && id !in parents && (under.Some? ==> under.value in parents)
    ensures Acyclic(parents[id := under])
  {
    var more := parents[id := under];
    assert under.None? ==> Up(parents, under, 0).None?;
    forall c: Option<CategoryId> | c == under || (c.Some? && c.value in parents)
      ensures Rooted(more, c)
    {
      forall k: nat
        ensures Up(parents, c, k) != Some(id)
      {
        NewIdIsNobodysAncestor(parents, id, c, k);
      }
      RootedAbove(parents, id, under, c);
    }
    RootedMoved(parents, id, under);
  }

  // ----- requests -----

  /** What the two handlers check before they write. */
  predicate Accepts(parents: Parents, op: Op) {
    match op
    case Create(id, under) => id !in parents && (under.Some? ==> under.value in parents)
    case Move(id, to) => id in parents && (to.Some? ==> to.value in parents && !Meets(parents, id, to, MAX_DEPTH))
  }

  function Written(parents: Parents, op: Op): Parents {
    match op
    case Create(id, under) => parents[id := under]
    case Move(id, to) => parents[id := to]
  }

  function Next(parents: Parents, op: Op): Parents {
    if Accepts(parents, op) then Written(parents, op) else parents
  }

  function Exec(parents: Parents, ops: seq<Op>): Parents
    decreases |ops|
  {
    if ops == [] then parents else Exec(Next(parents, ops[0]), ops[1..])
  }

  /** A move looks at a chain no longer than the walk. */
  predicate ShortChain(parents: Parents, op: Op) {
    op.Move? && op.to.Some? ==> Up(parents, op.to, MAX_DEPTH).None?
  }

  lemma AcceptedKeepsTree(parents: Parents, op: Op)
    requires Acyclic(parents) && Closed(parents) && ShortChain(parents, op)
    ensures Acyclic(Next(parents, op)) && Closed(Next(parents, op))
  {
    if Accepts(parents, op) {
      match op
      case Create(id, under) => CreateKeepsTree(parents, id, under);
      case Move(id, to) =>
        if to.Some? {
          WalkDecidesShortChains(parents, id, to.value);
          MoveKeepsTreeExactly(parents, id, to.value);
        } else {
          LooseKeepsTree(parents, id);
        }
    }
  }

  predicate ShortChains(parents: Parents, ops: seq<Op>)
    decreases |ops|
  {
    ops == [] || (ShortChain(parents, ops[0]) && ShortChains(Next(parents, ops[0]), ops[1..]))
  }

  /**
   * Every sequence of creates and moves leaves a tree, as long as each move
   * puts its category under a chain of at most 32 categories.
   */
  lemma {:induction false} RequestsKeepTree(parents: Parents, ops: seq<Op>)
    requires Acyclic(parents) && Closed(parents) && ShortChains(parents, ops)
    ensures Acyclic(Exec(parents, ops)) && Closed(Exec(parents, ops))
    decreases |ops|
  {
    if ops != [] {
      AcceptedKeepsTree(parents, ops[0]);
      RequestsKeepTree(Next(parents, ops[0]), ops[1..]);
    }
  }

  /** An accepted move makes a cycle exactly when the category is an ancestor beyond the walk's 32. */
  lemma AcceptedMoveBreaksExactly(parents: Parents, id: CategoryId, p: CategoryId)
    requires Acyclic(parents) && Accepts(parents, Move(id, Some(p)))
    ensures !Acyclic(Next(parents, Move(id, Some(p)))) <==>
        exists k: nat :: k >= MAX_DEPTH && Up(parents, Some(p), k) == Some(id)
  {
    MoveKeepsTreeExactly(parents, id, p);
    assert !Meets(parents, id, Some(p), MAX_DEPTH);
    if IsSelfOrAncestor(parents, id, Some(p)) {
      var k: nat :| Up(parents, Some(p), k) == Some(id);
      if k < MAX_DEPTH {
        MeetsAt(parents, id, Some(p), MAX_DEPTH, k);
      }
      assert k >= MAX_DEPTH && Up(parents, Some(p), k) == Some(id);
    }
  }

  /** A line of categories: each one under the one before it. */
  function Line(n: nat): (line: Parents)
    ensures forall c: nat :: c in line <==> c <= n
    ensures forall c: nat :: c in line ==> line[c] == if c == 0 then None else Some(c - 1)
  {
    if n == 0 then map[0 := None] else Line(n - 1)[n := Some(n - 1)]
  }

  lemma {:induction false} UpTheLine(n: nat, c: nat, k: nat)
    requires c <= n
    ensures Up(Line(n), Some(c), k) == if k <= c then Some(c - k) else None
    decreases k
  {
    if k > 0 && c > 0 {
      UpTheLine(n, c - 1, k - 1);
    } else if k > 0 {
      assert Up(Line(n), Some(c), k) == Up(Line(n), None, k - 1);
    }
  }

  /** Moving the top of a line under its bottom is noticed exactly up to 32 categories; beyond that it makes a cycle. */
  lemma LongLinesAreNotNoticed(n: nat)
    ensures Acyclic(Line(n)) && Closed(Line(n))
    ensures Meets(Line(n), 0, Some(n), MAX_DEPTH) <==> n < MAX_DEPTH
    ensures Accepts(Line(n), Move(0, Some(n))) <==> n >= MAX_DEPTH
    ensures !Acyclic(Line(n)[0 := Some(n)])
  {
    LineIsATree(n);
    LineIsMet(n, MAX_DEPTH);
    UpTheLine(n, n, n);
    assert IsSelfOrAncestor(Line(n), 0, Some(n));
    MoveKeepsTreeExactly(Line(n), 0, n);
  }

  lemma LineIsATree(n: nat)
    ensures Acyclic(Line(n)) && Closed(Line(n))
  {
    forall c | c in Line(n)
      ensures Rooted(Line(n), Some(c))
    {
      UpTheLine(n, c, c + 1);
    }
  }

  lemma LineIsMet(n: nat, depth: nat)
    ensures Meets(Line(n), 0, Some(n), depth) <==> n < depth
  {
    MeetsExactly(Line(n), 0, Some(n), depth);
    UpTheLine(n, n, n);
    if Meets(Line(n), 0, Some(n), depth) {
      var k: nat :| k < depth && Up(Line(n), Some(n), k) == Some(0);
      UpTheLine(n, n, k);
    }
  }

  /** Two moves that are both checked before either is written put two roots under each other. */
  lemma OverlappingMovesMakeACycle()
    ensures var roots: Parents := map[1 := None, 2 := None];
            && Acyclic(roots) && Closed(roots)
            && Accepts(roots, Move(1, Some(2))) && Accepts(roots, Move(2, Some(1)))
            && !Acyclic(Written(Written(roots, Move(1, Some(2))), Move(2, Some(1))))
  {
    var roots: Parents := map[1 := None, 2 := None];
    assert Up(roots, Some(1), 1).None? && Up(roots, Some(2), 1).None?;
    assert !Meets(roots, 1, Some(2), MAX_DEPTH) && !Meets(roots, 2, Some(1), MAX_DEPTH);
    var once := Written(roots, Move(1, Some(2)));
    assert Up(once, Some(1), 1) == Some(2);
    assert IsSelfOrAncestor(once, 2, Some(1));
    CycleIsNotRooted(once, 2, 1);
  }

  /** The rows and the handlers that write them. */
  class CategoryTable {
    var parents: Parents

    constructor ()
      ensures parents == map[]
    {
      parents := map[];
    }

    method CreateCategory(id: CategoryId, under: Option<CategoryId>) returns (created: bool)
      requires id !in parents
      modifies this
      ensures created <==> Accepts(old(parents), Create(id, under))
      ensures parents == Next(old(parents), Create(id, under))
    {
      if under.Some? && under.value !in parents {
        return false;
      }
      parents := parents[id := under];
      return true;
    }

    /** Checks the new parent, walks up from it, and writes; nothing else writes in between. */
    method MoveCategory(id: CategoryId, to: Option<CategoryId>) returns (moved: bool)
      modifies this
      ensures moved <==> Accepts(old(parents), Move(id, to))
      ensures parents == Next(old(parents), Move(id, to))
    {
      if id !in parents {
        return false;
      }
      if to.Some? {
        if to.value !in parents {
          return false;
        }
        var cycle := IsCategoryCycle(parents, id, to.value);
        if cycle {
          return false;
        }
      }
      parents := parents[id := to];
      return true;
    }
  }
}
