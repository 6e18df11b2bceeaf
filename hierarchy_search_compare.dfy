/**
 * `hierarchy_search_compare`: build the nested parent/child hierarchy of a
 * CKAN package from its `child_of` and `parent_of` relationships.  The
 * `package_show` and `package_search` variants run the same algorithm and
 * differ only in the call that looks a package up, so the algorithm is given
 * once, over a connection whose lookup is either of them.
 */
module Hierarchy {
  import opened Catalogue

  /** A package name or id as read from a record; None when the key is absent or null. */
  type Ref = Option<string>

  /** A relationship record: `obj` is the record's `object` key; `subject` is the parent for `parent_of` and the child for `child_of`. */
  datatype Relationship = Relationship(subject: Ref, obj: Ref, id: Ref)

  datatype RelType = ParentOf | ChildOf

  /** The answer to `package_relationships_list`: the relationships, or a NotFound error. */
  datatype RelResult = Related(rels: seq<Relationship>) | RelNotFound

  /** The package fields the hierarchy reads; `kind` is the record's `type` field. */
  datatype Package = Package(name: Ref, title: Ref, kind: Ref)

  /** The answer to a package lookup (`package_show`, or `package_search` in the other variant). */
  datatype Lookup = Found(pkg: Package) | LookupNotFound | LookupNotAuthorized

  /** The remote calls, reduced to their answers. */
  datatype Connection = Connection(relationships: (Ref, RelType) -> RelResult, lookup: Ref -> Lookup)

  /** The exceptions that escape `get_hierarchy`. */
  datatype Failure = IndexError | NotFound | NotAuthorized

  datatype Result<T> = Ok(value: T) | Err(failure: Failure)

  /** An entry `{name, parent, level}` of the flat hierarchy list. */
  datatype Entry = Entry(name: Ref, parent: Ref, level: int)

  // ---------------------------------------------------------------------
  // Downward traversal (`get_relationships_from_api` with `parent_of`)

  /**
   * `down` ranks the `parent_of` graph: every child ranks below its parent,
   * so the graph is acyclic and every descent is finite.
   */
  ghost predicate RanksChildren(conn: Connection, down: Ref -> nat) {
    forall id: Ref ::
      conn.relationships(id, ParentOf).Related? ==>
        forall k :: 0 <= k < |conn.relationships(id, ParentOf).rels| ==>
          down(conn.relationships(id, ParentOf).rels[k].obj) < down(id)
  }

  /** The entries appended for the relationships of one package, one per relationship, in order. */
  function ChildEntries(rs: seq<Relationship>, level: int): seq<Entry> {
    seq(|rs|, k requires 0 <= k < |rs| => Entry(rs[k].obj, rs[k].subject, level))
  }

  /**
   * The entries the traversal from `id` appends: its children at `level`,
   * then, child by child, the entries of each child's own traversal.
   */
  function Descendants(conn: Connection, id: Ref, level: int, ghost down: Ref -> nat): seq<Entry>
    requires RanksChildren(conn, down)
    decreases down(id), 1
  {
    match conn.relationships(id, ParentOf)
    case RelNotFound => []
    case Related(rs) => ChildEntries(rs, level) + Subtrees(conn, rs, level + 1, down, down(id))
  }

  /** The traversals of the children `rs`, concatenated in order. */
  function Subtrees(conn: Connection, rs: seq<Relationship>, level: int, ghost down: Ref -> nat, ghost bound: nat)
    : seq<Entry>
    requires RanksChildren(conn, down)
    requires forall k :: 0 <= k < |rs| ==> down(rs[k].obj) < bound
    decreases bound, 0, |rs|
  {
    if rs == [] then []
    else Subtrees(conn, rs[..|rs| - 1], level, down, bound) + Descendants(conn, rs[|rs| - 1].obj, level, down)
  }

  /** Every entry of a traversal started at `level` is at `level` or deeper. */
  lemma {:induction false} DescendantLevels(conn: Connection, id: Ref, level: int, down: Ref -> nat)
    requires RanksChildren(conn, down)
    ensures forall e :: e in Descendants(conn, id, level, down) ==> e.level >= level
    decreases down(id), 1
  {
    match conn.relationships(id, ParentOf)
    case RelNotFound =>
    case Related(rs) => SubtreeLevels(conn, rs, level + 1, down, down(id));
  }

  lemma {:induction false} SubtreeLevels(conn: Connection, rs: seq<Relationship>, level: int, down: Ref -> nat, bound: nat)
    requires RanksChildren(conn, down)
    requires forall k :: 0 <= k < |rs| ==> down(rs[k].obj) < bound
    ensures forall e :: e in Subtrees(conn, rs, level, down, bound) ==> e.level >= level
    decreases bound, 0, |rs|
  {
    if rs != [] {
      SubtreeLevels(conn, rs[..|rs| - 1], level, down, bound);
      DescendantLevels(conn, rs[|rs| - 1].obj, level, down);
    }
  }

  /**
   * All siblings come before any of their descendants: a traversal's first
   * entries are one per relationship of the start, at `level`, and every later
   * entry is deeper.
   */
  lemma SiblingsFirst(conn: Connection, id: Ref, level: int, down: Ref -> nat)
    requires RanksChildren(conn, down)
    requires conn.relationships(id, ParentOf).Related?
    ensures var rs, es := conn.relationships(id, ParentOf).rels, Descendants(conn, id, level, down);
            |rs| <= |es| && es[..|rs|] == ChildEntries(rs, level)
            && forall k :: |rs| <= k < |es| ==> es[k].level > level
  {
    var rs := conn.relationships(id, ParentOf).rels;
    var es := Descendants(conn, id, level, down);
    SubtreeLevels(conn, rs, level + 1, down, down(id));
    var sub := Subtrees(conn, rs, level + 1, down, down(id));
    assert es == ChildEntries(rs, level) + sub;
    forall k | |rs| <= k < |es| ensures es[k].level > level {
      assert es[k] == sub[k - |rs|];
    }
  }

  /** The shared list the traversal extends in place (`hierarchy += ...`). */
  class HierarchyList {
    var entries: seq<Entry>

    constructor ()
      ensures entries == []
    {
      entries := [];
    }

    /**
     * `get_relationships_from_api(connection, id, 'parent_of', hierarchy, level)`:
     * a NotFound leaves the list unchanged; otherwise the children's entries
     * are appended, then each child is traversed one level deeper into the
     * same list.
     */
    method Collect(conn: Connection, id: Ref, level: int, ghost down: Ref -> nat)
      requires RanksChildren(conn, down)
      modifies this
      ensures entries == old(entries) + Descendants(conn, id, level, down)
      decreases down(id)
    {
      var response := conn.relationships(id, ParentOf);
      if response.RelNotFound? {
        assert entries == entries + [];
        return;
      }
      var rs := response.rels;
      entries := entries + ChildEntries(rs, level);
      ghost var start := entries;
      assert start + Subtrees(conn, rs[..0], level + 1, down, down(id)) == start;
      for k := 0 to |rs|
        invariant entries == start + Subtrees(conn, rs[..k], level + 1, down, down(id))
      {
        assert rs[..k + 1][..k] == rs[..k];
        ConcatAssoc(start, Subtrees(conn, rs[..k], level + 1, down, down(id)),
                    Descendants(conn, rs[k].obj, level + 1, down));
        Collect(conn, rs[k].obj, level + 1, down);
      }
      assert rs[..|rs|] == rs;
      ConcatAssoc(old(entries), ChildEntries(rs, level), Subtrees(conn, rs, level + 1, down, down(id)));
    }
  }

  // ---------------------------------------------------------------------
  // Upward traversal (`get_relationships_from_api` with `child_of`)

  /** `up` ranks the `child_of` chain: the first parent of a package ranks below it. */
  ghost predicate RanksParents(conn: Connection, up: Ref -> nat) {
    forall id: Ref ::
      conn.relationships(id, ChildOf).Related? && |conn.relationships(id, ChildOf).rels| > 0 ==>
        up(conn.relationships(id, ChildOf).rels[0].obj) < up(id)
  }

  /**
   * Follow the first `child_of` relationship upward until a package has none
   * (NotFound), and return the last list of relationships found; `acc` is the
   * list found one step below, [] at the start.  An empty list of
   * relationships raises an IndexError on `relationships[0]`.
   */
  function TopLevelParent(conn: Connection, id: Ref, acc: seq<Relationship>, ghost up: Ref -> nat)
    : (r: Result<seq<Relationship>>)
    requires RanksParents(conn, up)
    ensures r.Err? ==> r.failure == IndexError
    ensures r.Ok? ==>
              (r.value == acc && conn.relationships(id, ChildOf).RelNotFound?)
              || (conn.relationships(id, ChildOf).Related? && r.value != []
                  && conn.relationships(r.value[0].obj, ChildOf).RelNotFound?
                  && exists p :: conn.relationships(p, ChildOf) == Related(r.value))
    decreases up(id)
  {
    match conn.relationships(id, ChildOf)
    case RelNotFound => Ok(acc)
    case Related(rs) =>
      if rs == [] then Err(IndexError)
      else TopLevelParent(conn, rs[0].obj, rs, up)
  }

  /**
   * `p` is reached from `id` by n steps of the climb: each step follows the
   * object of the first `child_of` relationship of a package that has some.
   */
  ghost predicate Reaches(conn: Connection, id: Ref, p: Ref, n: nat)
    decreases n
  {
    if n == 0 then p == id
    else
      var r := conn.relationships(id, ChildOf);
      r.Related? && r.rels != [] && Reaches(conn, r.rels[0].obj, p, n - 1)
  }

  /**
   * The climb from `id` raises the IndexError exactly when it reaches a
   * package whose list of parent relationships is empty.
   */
  lemma {:induction false} ClimbFailsIffEmptyList(conn: Connection, id: Ref, acc: seq<Relationship>, up: Ref -> nat)
    requires RanksParents(conn, up)
    ensures TopLevelParent(conn, id, acc, up).Err?
            <==> exists p: Ref, n: nat :: Reaches(conn, id, p, n) && conn.relationships(p, ChildOf) == Related([])
    decreases up(id)
  {
    match conn.relationships(id, ChildOf)
    case RelNotFound =>
    case Related(rs) =>
      if rs == [] {
        var p: Ref, n: nat := id, 0;
        assert Reaches(conn, id, p, n) && conn.relationships(p, ChildOf) == Related([]);
        assert exists p: Ref, n: nat :: Reaches(conn, id, p, n) && conn.relationships(p, ChildOf) == Related([]);
        assert TopLevelParent(conn, id, acc, up).Err?;
      } else {
        var next := rs[0].obj;
        ClimbFailsIffEmptyList(conn, next, rs, up);
        assert TopLevelParent(conn, id, acc, up) == TopLevelParent(conn, next, rs, up);
        if TopLevelParent(conn, id, acc, up).Err? {
          var p: Ref, n: nat :| Reaches(conn, next, p, n) && conn.relationships(p, ChildOf) == Related([]);
          assert Reaches(conn, id, p, n + 1);
          assert exists p: Ref, n: nat :: Reaches(conn, id, p, n) && conn.relationships(p, ChildOf) == Related([]);
        }
        if exists p: Ref, n: nat :: Reaches(conn, id, p, n) && conn.relationships(p, ChildOf) == Related([]) {
          var p: Ref, n: nat :| Reaches(conn, id, p, n) && conn.relationships(p, ChildOf) == Related([]);
          assert n != 0;
          assert Reaches(conn, next, p, n - 1);
          assert exists p: Ref, n: nat :: Reaches(conn, next, p, n) && conn.relationships(p, ChildOf) == Related([]);
        }
      }
  }

  /**
   * A successful climb from a package that has parent relationships returns
   * the list of the package on the climb whose first parent has none: the
   * last list found before the climb ends.
   */
  lemma {:induction false} ClimbEndsAtTopLevel(conn: Connection, id: Ref, acc: seq<Relationship>, up: Ref -> nat)
    requires RanksParents(conn, up)
    requires TopLevelParent(conn, id, acc, up).Ok? && conn.relationships(id, ChildOf).Related?
    ensures var top := TopLevelParent(conn, id, acc, up).value;
            top != [] && conn.relationships(top[0].obj, ChildOf).RelNotFound?
            && exists p: Ref, n: nat :: Reaches(conn, id, p, n) && conn.relationships(p, ChildOf) == Related(top)
    decreases up(id)
  {
    var rs := conn.relationships(id, ChildOf).rels;
    var next := rs[0].obj;
    if conn.relationships(next, ChildOf).RelNotFound? {
      assert Reaches(conn, id, id, 0);
    } else {
      ClimbEndsAtTopLevel(conn, next, rs, up);
      var top := TopLevelParent(conn, id, acc, up).value;
      var p: Ref, n: nat :| Reaches(conn, next, p, n) && conn.relationships(p, ChildOf) == Related(top);
      assert Reaches(conn, id, p, n + 1);
    }
  }

  /** The climb is deterministic: from one package, n steps reach one package. */
  lemma {:induction false} ReachesUnique(conn: Connection, id: Ref, p: Ref, q: Ref, n: nat)
    requires Reaches(conn, id, p, n) && Reaches(conn, id, q, n)
    ensures p == q
    decreases n
  {
    if n > 0 {
      ReachesUnique(conn, conn.relationships(id, ChildOf).rels[0].obj, p, q, n - 1);
    }
  }

  // ---------------------------------------------------------------------
  // Removing relationships while iterating over them (`remove_private_relationships_*`)

  /** `hierarchy=False` checks each relationship's `id`; `hierarchy=True` checks its object, then its subject. */
  datatype CheckMode = ById | ByEndpoints

  /** What the checks of one relationship lead to: keep it, remove it, or raise. */
  datatype Verdict = Keep | Drop | Raise

  /** One lookup inside the `try`: NotAuthorized is caught and removes; NotFound escapes. */
  function Probe(conn: Connection, id: Ref): Verdict {
    match conn.lookup(id)
    case Found(_) => Keep
    case LookupNotAuthorized => Drop
    case LookupNotFound => Raise
  }

  function CheckOf(conn: Connection, mode: CheckMode, r: Relationship): Verdict {
    match mode
    case ById => Probe(conn, r.id)
    case ByEndpoints => if Probe(conn, r.obj) == Keep then Probe(conn, r.subject) else Probe(conn, r.obj)
  }

  /** The position of the first element equal to `x`. */
  function IndexOf<T(==)>(s: seq<T>, x: T): (i: nat)
    requires x in s
    ensures i < |s| && s[i] == x
    ensures forall j :: 0 <= j < i ==> s[j] != x
  {
    if s[0] == x then 0 else 1 + IndexOf(s[1..], x)
  }

  /** `list.remove(x)`: drop the first element equal to `x`. */
  function RemoveFirst<T(==)>(s: seq<T>, x: T): (r: seq<T>)
    requires x in s
    ensures |r| == |s| - 1
    ensures multiset(r) == multiset(s) - multiset{x}
  {
    var i := IndexOf(s, x);
    assert s == s[..i] + [x] + s[i + 1..];
    s[..i] + s[i + 1..]
  }

  /**
   * A `for` loop over a list that the body shrinks: the iterator visits
   * index `idx`, then `idx + 1` of the list as it is by then, and stops once the
   * index reaches the list's current length.  Removing the element just
   * visited shifts the next one onto the visited index, so it is never checked.
   */
  function RemoveWhileIterating(conn: Connection, mode: CheckMode, rels: seq<Relationship>, idx: nat)
    : Result<seq<Relationship>>
    decreases |rels| + 1 - idx
  {
    if idx >= |rels| then Ok(rels)
    else match CheckOf(conn, mode, rels[idx])
      case Keep => RemoveWhileIterating(conn, mode, rels, idx + 1)
      case Drop => RemoveWhileIterating(conn, mode, RemoveFirst(rels, rels[idx]), idx + 1)
      case Raise => Err(NotFound)
  }

  /** `remove_private_relationships_show` / `_search`, removing from the list as it iterates over it. */
  method RemovePrivateRelationships(conn: Connection, relationships: seq<Relationship>, mode: CheckMode)
    returns (result: Result<seq<Relationship>>)
    ensures result == RemoveWhileIterating(conn, mode, relationships, 0)
  {
    var rels := relationships;
    var idx := 0;
    while idx < |rels|
      invariant RemoveWhileIterating(conn, mode, rels, idx) == RemoveWhileIterating(conn, mode, relationships, 0)
      decreases |rels| + 1 - idx
    {
      var relationship := rels[idx];
      idx := idx + 1;
      var verdict := Probe(conn, if mode == ById then relationship.id else relationship.obj);
      if mode == ByEndpoints && verdict == Keep {
        verdict := Probe(conn, relationship.subject);
      }
      if verdict == Raise {
        return Err(NotFound);
      }
      if verdict == Drop {
        rels := RemoveFirst(rels, relationship);
      }
    }
    return Ok(rels);
  }

  /** `a` is `b` with some elements deleted. */
  predicate IsSubsequence<T(==)>(a: seq<T>, b: seq<T>)
    decreases |b|
  {
    if b == [] then a == []
    else (a != [] && a[0] == b[0] && IsSubsequence(a[1..], b[1..])) || IsSubsequence(a, b[1..])
  }

  lemma {:induction false} SubsequenceReflexive<T>(s: seq<T>)
    ensures IsSubsequence(s, s)
    decreases |s|
  {
    if s != [] {
      SubsequenceReflexive(s[1..]);
    }
  }

  lemma {:induction false} SubsequenceTransitive<T>(a: seq<T>, b: seq<T>, c: seq<T>)
    requires IsSubsequence(a, b) && IsSubsequence(b, c)
    ensures IsSubsequence(a, c)
    decreases |c|
  {
    if c != [] {
      if IsSubsequence(b, c[1..]) {
        SubsequenceTransitive(a, b, c[1..]);
      } else if a != [] && a[0] == b[0] && IsSubsequence(a[1..], b[1..]) {
        SubsequenceTransitive(a[1..], b[1..], c[1..]);
      } else {
        SubsequenceTransitive(a, b[1..], c[1..]);
      }
    }
  }

  lemma {:induction false} DeletionIsSubsequence<T>(s: seq<T>, i: nat)
    requires i < |s|
    ensures IsSubsequence(s[..i] + s[i + 1..], s)
    decreases i
  {
    if i == 0 {
      assert s[..0] + s[1..] == s[1..];
      SubsequenceReflexive(s[1..]);
    } else {
      DeletionIsSubsequence(s[1..], i - 1);
      assert (s[..i] + s[i + 1..])[1..] == s[1..][..i - 1] + s[1..][i - 1 + 1..];
    }
  }

  /** The filtered list is a subsequence of the input: elements are only ever removed, never reordered. */
  lemma {:induction false} RemovalGivesSubsequence(conn: Connection, mode: CheckMode, rels: seq<Relationship>, idx: nat)
    requires RemoveWhileIterating(conn, mode, rels, idx).Ok?
    ensures IsSubsequence(RemoveWhileIterating(conn, mode, rels, idx).value, rels)
    decreases |rels| + 1 - idx
  {
    if idx >= |rels| {
      SubsequenceReflexive(rels);
    } else if CheckOf(conn, mode, rels[idx]) == Keep {
      RemovalGivesSubsequence(conn, mode, rels, idx + 1);
    } else {
      var shorter := RemoveFirst(rels, rels[idx]);
      RemovalGivesSubsequence(conn, mode, shorter, idx + 1);
      DeletionIsSubsequence(rels, IndexOf(rels, rels[idx]));
      SubsequenceTransitive(RemoveWhileIterating(conn, mode, shorter, idx + 1).value, shorter, rels);
    }
  }

  /** A relationship whose checks pass is never removed: every copy of it survives. */
  lemma {:induction false} PassingRelationshipsKept(conn: Connection, mode: CheckMode, rels: seq<Relationship>, idx: nat,
                                                    r: Relationship)
    requires RemoveWhileIterating(conn, mode, rels, idx).Ok?
    requires CheckOf(conn, mode, r) == Keep
    ensures multiset(RemoveWhileIterating(conn, mode, rels, idx).value)[r] == multiset(rels)[r]
    decreases |rels| + 1 - idx
  {
    if idx < |rels| {
      if CheckOf(conn, mode, rels[idx]) == Keep {
        PassingRelationshipsKept(conn, mode, rels, idx + 1, r);
      } else {
        PassingRelationshipsKept(conn, mode, RemoveFirst(rels, rels[idx]), idx + 1, r);
      }
    }
  }

  /** When every check passes, nothing is removed. */
  lemma {:induction false} AllPassingKeepsAll(conn: Connection, mode: CheckMode, rels: seq<Relationship>, idx: nat)
    requires forall k :: 0 <= k < |rels| ==> CheckOf(conn, mode, rels[k]) == Keep
    ensures RemoveWhileIterating(conn, mode, rels, idx) == Ok(rels)
    decreases |rels| + 1 - idx
  {
    if idx < |rels| {
      AllPassingKeepsAll(conn, mode, rels, idx + 1);
    }
  }

  /**
   * As written the filter skips the element after each removal: of two
   * relationships whose object lookup is not authorised, only the first is
   * checked and removed, and the second stays.
   */
  lemma RemovalSkipsNextRelationship()
    ensures var conn := Connection((id, t) => RelNotFound, id => LookupNotAuthorized);
            var a, b := Relationship(Some("p"), Some("a"), None), Relationship(Some("p"), Some("b"), None);
            RemoveWhileIterating(conn, ByEndpoints, [a, b], 0) == Ok([b])
            && RemoveUnauthorised(conn, ByEndpoints, [a, b]) == Ok([])
  {
    var conn := Connection((id, t) => RelNotFound, id => LookupNotAuthorized);
    var a, b := Relationship(Some("p"), Some("a"), None), Relationship(Some("p"), Some("b"), None);
    assert IndexOf([a, b], a) == 0;
    assert RemoveFirst([a, b], a) == [b];
    assert [a, b][..1] == [a];
    assert [a][..0] == [];
    assert CheckOf(conn, ByEndpoints, a) == Drop && CheckOf(conn, ByEndpoints, b) == Drop;
    assert RemoveUnauthorised(conn, ByEndpoints, [a]) == Ok([]);
  }

  /**
   * The filter as evidently intended: check every relationship once and keep
   * exactly those whose checks pass; a check that raises ends the filter.
   */
  function RemoveUnauthorised(conn: Connection, mode: CheckMode, rels: seq<Relationship>): Result<seq<Relationship>> {
    if rels == [] then Ok([])
    else match RemoveUnauthorised(conn, mode, rels[..|rels| - 1])
      case Err(f) => Err(f)
      case Ok(kept) =>
        match CheckOf(conn, mode, rels[|rels| - 1])
        case Keep => Ok(kept + [rels[|rels| - 1]])
        case Drop => Ok(kept)
        case Raise => Err(NotFound)
  }

  /**
   * The intended filter fails exactly when some check raises; otherwise it
   * keeps exactly the relationships whose checks pass, in their order.
   */
  lemma {:induction false} RemoveUnauthorisedKeepsPassing(conn: Connection, mode: CheckMode, rels: seq<Relationship>)
    ensures RemoveUnauthorised(conn, mode, rels).Err?
            <==> exists k :: 0 <= k < |rels| && CheckOf(conn, mode, rels[k]) == Raise
    ensures RemoveUnauthorised(conn, mode, rels).Ok? ==>
              var kept := RemoveUnauthorised(conn, mode, rels).value;
              IsSubsequence(kept, rels)
              && forall r :: r in kept <==> r in rels && CheckOf(conn, mode, r) == Keep
    decreases |rels|
  {
    if rels != [] {
      var init, last := rels[..|rels| - 1], rels[|rels| - 1];
      RemoveUnauthorisedKeepsPassing(conn, mode, init);
      assert rels == init + [last];
      if RemoveUnauthorised(conn, mode, rels).Err? {
        if RemoveUnauthorised(conn, mode, init).Err? {
          var k :| 0 <= k < |init| && CheckOf(conn, mode, init[k]) == Raise;
          assert rels[k] == init[k];
        } else {
          assert CheckOf(conn, mode, rels[|rels| - 1]) == Raise;
        }
      } else {
        forall k | 0 <= k < |rels| ensures CheckOf(conn, mode, rels[k]) != Raise {
          if k < |init| {
            assert rels[k] == init[k];
          }
        }
        var kept := RemoveUnauthorised(conn, mode, init).value;
        SubsequenceAppend(kept, init, last, CheckOf(conn, mode, last) == Keep);
      }
    }
  }

  /** The intended filter keeps every copy of a passing relationship and none of a failing one. */
  lemma {:induction false} IntendedKeepsEveryCopy(conn: Connection, mode: CheckMode, rels: seq<Relationship>,
                                                  r: Relationship)
    requires RemoveUnauthorised(conn, mode, rels).Ok?
    ensures multiset(RemoveUnauthorised(conn, mode, rels).value)[r]
            == if CheckOf(conn, mode, r) == Keep then multiset(rels)[r] else 0
    decreases |rels|
  {
    if rels != [] {
      var init, last := rels[..|rels| - 1], rels[|rels| - 1];
      IntendedKeepsEveryCopy(conn, mode, init, r);
      assert rels == init + [last];
    }
  }

  lemma {:induction false} SubsequenceAppend<T>(a: seq<T>, b: seq<T>, x: T, keep: bool)
    requires IsSubsequence(a, b)
    ensures IsSubsequence(if keep then a + [x] else a, b + [x])
    decreases |b|
  {
    if b == [] {
      assert b + [x] == [x];
      if keep {
        assert a + [x] == [x];
        assert IsSubsequence([x][1..], [x][1..]);
      }
    } else {
      assert (b + [x])[1..] == b[1..] + [x];
      if a != [] && a[0] == b[0] && IsSubsequence(a[1..], b[1..]) {
        SubsequenceAppend(a[1..], b[1..], x, keep);
        if keep {
          assert (a + [x])[1..] == a[1..] + [x];
        }
      } else {
        SubsequenceAppend(a, b[1..], x, keep);
      }
    }
  }

  // ---------------------------------------------------------------------
  // Nesting the flat list, deepest level first (`get_hierarchy_*`)

  /** A node of the nested hierarchy; `children` is the group of the next level keyed by this node's name. */
  datatype Node = Node(title: Ref, level: int, parent: Ref, children: Option<map<Ref, Node>>)

  /** The nodes of one level, grouped by parent name and keyed by name within a group. */
  type Groups = map<Ref, map<Ref, Node>>

  /** A lookup that returns a record of type "dataset"; anything else skips the entry. */
  predicate IsDataset(l: Lookup) {
    l.Found? && l.pkg.kind == Some("dataset")
  }

  function NodeOf(p: Package, e: Entry, below: Groups): Node {
    Node(p.title, e.level, e.parent, if e.name in below then Some(below[e.name]) else None)
  }

  /**
   * One entry of a level: a lookup that is not authorised raises; one that
   * is not found, or a record that is not a dataset, is skipped; otherwise
   * the entry's node goes into its parent's group, replacing a node of the
   * same name.
   */
  function GroupStep(g: Groups, e: Entry, below: Groups, conn: Connection): Result<Groups> {
    match conn.lookup(e.name)
    case LookupNotAuthorized => Err(NotAuthorized)
    case LookupNotFound => Ok(g)
    case Found(p) =>
      if p.kind != Some("dataset") then Ok(g)
      else Ok(g[e.parent := (if e.parent in g then g[e.parent] else map[])[e.name := NodeOf(p, e, below)]])
  }

  /** The groups built from the entries of one level, in order, over the groups `below` of the next level. */
  function Group(entries: seq<Entry>, below: Groups, conn: Connection): Result<Groups> {
    if entries == [] then Ok(map[])
    else match Group(entries[..|entries| - 1], below, conn)
      case Err(f) => Err(f)
      case Ok(g) => GroupStep(g, entries[|entries| - 1], below, conn)
  }

  lemma {:induction false} GroupErrPersists(entries: seq<Entry>, n: nat, below: Groups, conn: Connection)
    requires n <= |entries| && Group(entries[..n], below, conn).Err?
    ensures Group(entries, below, conn) == Group(entries[..n], below, conn)
    decreases |entries|
  {
    if n < |entries| {
      var init := entries[..|entries| - 1];
      assert init[..n] == entries[..n];
      GroupErrPersists(init, n, below, conn);
    } else {
      assert entries[..n] == entries;
    }
  }

  /** Some entry of `entries` with parent `p` and name `n` looks up to a dataset. */
  ghost predicate HasEntry(entries: seq<Entry>, p: Ref, n: Ref, conn: Connection) {
    exists e :: e in entries && e.parent == p && e.name == n && IsDataset(conn.lookup(n))
  }

  /**
   * The groups `g` hold a node exactly for each dataset entry of `entries`,
   * under its parent, and that node is the entry's.
   */
  ghost predicate Describes(g: Groups, entries: seq<Entry>, level: int, below: Groups, conn: Connection) {
    (forall p, n :: p in g && n in g[p] <==> HasEntry(entries, p, n, conn))
    && forall p, n :: p in g && n in g[p]
         ==> IsDataset(conn.lookup(n)) && g[p][n] == NodeOf(conn.lookup(n).pkg, Entry(n, p, level), below)
  }

  /**
   * Grouping one level fails exactly when some lookup is not authorised.
   * Otherwise a group holds a node exactly for each dataset entry with that
   * parent, and the node carries the record's title, the entry's level and
   * parent, and as children the group keyed by its own name in the level
   * below, if there is one.  An entry that is skipped therefore takes the
   * whole group below it, and everything under that, out of the hierarchy.
   */
  lemma {:induction false} GroupContents(entries: seq<Entry>, level: int, below: Groups, conn: Connection)
    requires forall e :: e in entries ==> e.level == level
    ensures Group(entries, below, conn).Err? <==> exists e :: e in entries && conn.lookup(e.name).LookupNotAuthorized?
    ensures Group(entries, below, conn).Ok? ==>
              var g := Group(entries, below, conn).value;
              (forall p, n :: p in g && n in g[p]
                 <==> HasEntry(entries, p, n, conn))
              && forall p, n :: p in g && n in g[p]
                   ==> IsDataset(conn.lookup(n)) && g[p][n] == NodeOf(conn.lookup(n).pkg, Entry(n, p, level), below)
    decreases |entries|
  {
    if entries != [] {
      var init, last := entries[..|entries| - 1], entries[|entries| - 1];
      assert entries == init + [last];
      GroupContents(init, level, below, conn);
      if Group(init, below, conn).Err? {
        var e :| e in init && conn.lookup(e.name).LookupNotAuthorized?;
        assert e in entries;
      } else if Group(entries, below, conn).Ok? {
        assert last in entries;
        GroupStepDescribes(init, last, level, below, conn, Group(init, below, conn).value);
      } else {
        assert last in entries;
      }
    }
  }

  /** One successful step of the grouping keeps `Describes`. */
  lemma GroupStepDescribes(init: seq<Entry>, last: Entry, level: int, below: Groups, conn: Connection, g0: Groups)
    requires last.level == level
    requires Describes(g0, init, level, below, conn)
    requires GroupStep(g0, last, below, conn).Ok?
    ensures Describes(GroupStep(g0, last, below, conn).value, init + [last], level, below, conn)
  {
    GroupStepSound(init, last, level, below, conn, g0);
    GroupStepComplete(init, last, level, below, conn, g0);
  }

  /** After a successful step, every node in the groups comes from a dataset entry, and is that entry's. */
  lemma GroupStepSound(init: seq<Entry>, last: Entry, level: int, below: Groups, conn: Connection, g0: Groups)
    requires last.level == level
    requires Describes(g0, init, level, below, conn)
    requires GroupStep(g0, last, below, conn).Ok?
    ensures var g := GroupStep(g0, last, below, conn).value;
            forall p, n :: p in g && n in g[p]
              ==> HasEntry(init + [last], p, n, conn)
                  && IsDataset(conn.lookup(n)) && g[p][n] == NodeOf(conn.lookup(n).pkg, Entry(n, p, level), below)
  {
    var entries := init + [last];
    var g := GroupStep(g0, last, below, conn).value;
    assert last == Entry(last.name, last.parent, level);
    forall p, n | p in g && n in g[p]
      ensures HasEntry(entries, p, n, conn)
    {
      if IsDataset(conn.lookup(last.name)) && p == last.parent && n == last.name {
        assert last in entries;
      } else {
        assert p in g0 && n in g0[p];
        var e :| e in init && e.parent == p && e.name == n && IsDataset(conn.lookup(n));
        assert e in entries;
      }
    }
  }

  /** After a successful step, every dataset entry has its node in the groups. */
  lemma GroupStepComplete(init: seq<Entry>, last: Entry, level: int, below: Groups, conn: Connection, g0: Groups)
    requires Describes(g0, init, level, below, conn)
    requires GroupStep(g0, last, below, conn).Ok?
    ensures var g := GroupStep(g0, last, below, conn).value;
            forall p, n :: HasEntry(init + [last], p, n, conn) ==> p in g && n in g[p]
  {
    var entries := init + [last];
    var g := GroupStep(g0, last, below, conn).value;
    forall p, n | HasEntry(entries, p, n, conn)
      ensures p in g && n in g[p]
    {
      var e :| e in entries && e.parent == p && e.name == n && IsDataset(conn.lookup(n));
      if e != last {
        assert e in init;
        assert HasEntry(init, p, n, conn);
      }
    }
  }

  /** The level-`i` entries of the flat list, in order (`[r for r in hierarchy if r['level'] == i]`). */
  function LevelEntries(h: seq<Entry>, i: int): seq<Entry> {
    if h == [] then []
    else LevelEntries(h[..|h| - 1], i) + (if h[|h| - 1].level == i then [h[|h| - 1]] else [])
  }

  /** The level-`i` entries are exactly the entries of the flat list at level `i`. */
  lemma {:induction false} LevelEntriesMembers(h: seq<Entry>, i: int)
    ensures forall e :: e in LevelEntries(h, i) <==> e in h && e.level == i
    decreases |h|
  {
    if h != [] {
      var init, last := h[..|h| - 1], h[|h| - 1];
      assert h == init + [last];
      LevelEntriesMembers(init, i);
    }
  }

  /** The deepest level of a non-empty list (`max(...)`). */
  function MaxLevel(h: seq<Entry>): (m: int)
    requires h != []
    ensures forall e :: e in h ==> e.level <= m
    ensures exists e :: e in h && e.level == m
  {
    if |h| == 1 then h[0].level
    else
      var rest := MaxLevel(h[1..]);
      assert h == [h[0]] + h[1..];
      if h[0].level >= rest then h[0].level else rest
  }

  /** The groups after levels `lowest` down to `i` have been processed (levels 1 and deeper). */
  function GroupsFrom(conn: Connection, h: seq<Entry>, i: int, lowest: int): Result<Groups>
    requires i >= 1
    decreases lowest + 1 - i
  {
    if i > lowest then Ok(map[])
    else match GroupsFrom(conn, h, i + 1, lowest)
      case Err(f) => Err(f)
      case Ok(below) => Group(LevelEntries(h, i), below, conn)
  }

  /** Every group at level i >= 1 is made of the dataset entries at level i, nested over level i + 1's groups. */
  lemma GroupsFromContents(conn: Connection, h: seq<Entry>, i: int, lowest: int)
    requires 1 <= i <= lowest
    requires GroupsFrom(conn, h, i, lowest).Ok?
    ensures GroupsFrom(conn, h, i + 1, lowest).Ok?
    ensures var g, below := GroupsFrom(conn, h, i, lowest).value, GroupsFrom(conn, h, i + 1, lowest).value;
            (forall p, n :: p in g && n in g[p]
               <==> exists e :: e in h && e.level == i && e.parent == p && e.name == n && IsDataset(conn.lookup(n)))
            && forall p, n :: p in g && n in g[p]
                 ==> IsDataset(conn.lookup(n)) && g[p][n] == NodeOf(conn.lookup(n).pkg, Entry(n, p, i), below)
  {
    var below := GroupsFrom(conn, h, i + 1, lowest).value;
    var current := LevelEntries(h, i);
    LevelEntriesMembers(h, i);
    GroupContents(current, i, below, conn);
    var g := GroupsFrom(conn, h, i, lowest).value;
    assert g == Group(current, below, conn).value;
    forall p, n
      ensures (p in g && n in g[p])
              <==> exists e :: e in h && e.level == i && e.parent == p && e.name == n && IsDataset(conn.lookup(n))
    {
      if p in g && n in g[p] {
        assert HasEntry(current, p, n, conn);
        var e :| e in current && e.parent == p && e.name == n && IsDataset(conn.lookup(n));
        assert e in h && e.level == i;
      }
      if exists e :: e in h && e.level == i && e.parent == p && e.name == n && IsDataset(conn.lookup(n)) {
        var e :| e in h && e.level == i && e.parent == p && e.name == n && IsDataset(conn.lookup(n));
        assert e in current;
        assert HasEntry(current, p, n, conn);
      }
    }
  }

  lemma {:induction false} GroupsFromErrPersists(conn: Connection, h: seq<Entry>, i: int, lowest: int)
    requires 1 <= i && GroupsFrom(conn, h, i, lowest).Err?
    ensures GroupsFrom(conn, h, 1, lowest) == GroupsFrom(conn, h, i, lowest)
    decreases i
  {
    if i > 1 {
      GroupsFromErrPersists(conn, h, i - 1, lowest);
    }
  }

  /** The flat list as `get_hierarchy` builds it: the root at level 0, then entries at level 1 and deeper. */
  ghost predicate RootFirst(h: seq<Entry>) {
    h != [] && h[0].level == 0 && forall e :: e in h[1..] ==> e.level > 0
  }

  /** Level 0 holds the root alone. */
  lemma {:induction false} RootLevel(h: seq<Entry>)
    requires RootFirst(h)
    ensures LevelEntries(h, 0) == [h[0]]
    decreases |h|
  {
    if |h| > 1 {
      var init := h[..|h| - 1];
      assert h[|h| - 1] in h[1..];
      assert init[1..] <= h[1..];
      assert forall e :: e in init[1..] ==> e in h[1..];
      RootLevel(init);
    } else {
      assert h[..0] == [];
    }
  }

  /**
   * Level 0: the root's node under its own name, or {} when the root is
   * skipped.  With the root alone at level 0, `tmp_nested_hierarchy` is
   * replaced by the root's entry.
   */
  function RootNest(conn: Connection, root: Entry, below: Groups): Result<map<Ref, Node>> {
    match conn.lookup(root.name)
    case LookupNotAuthorized => Err(NotAuthorized)
    case LookupNotFound => Ok(map[])
    case Found(p) => if p.kind != Some("dataset") then Ok(map[]) else Ok(map[root.name := NodeOf(p, root, below)])
  }

  /** The nested hierarchy built from the flat list. */
  function Nest(conn: Connection, h: seq<Entry>): Result<map<Ref, Node>>
    requires RootFirst(h)
  {
    match GroupsFrom(conn, h, 1, MaxLevel(h))
    case Err(f) => Err(f)
    case Ok(below) => RootNest(conn, h[0], below)
  }

  /**
   * The result is `{root_name: node}` when the root is a dataset, and `{}`
   * when it is skipped; the root's node is at level 0 and its children are
   * the level-1 group keyed by its name.
   */
  lemma NestShape(conn: Connection, h: seq<Entry>)
    requires RootFirst(h)
    requires Nest(conn, h).Ok?
    ensures GroupsFrom(conn, h, 1, MaxLevel(h)).Ok?
    ensures var t, below := Nest(conn, h).value, GroupsFrom(conn, h, 1, MaxLevel(h)).value;
            (forall n :: n in t <==> n == h[0].name && IsDataset(conn.lookup(n)))
            && (h[0].name in t ==>
                  t[h[0].name] == Node(conn.lookup(h[0].name).pkg.title, 0, h[0].parent,
                                       if h[0].name in below then Some(below[h[0].name]) else None))
  {
    assert GroupsFrom(conn, h, 1, MaxLevel(h)).Ok?;
    var below := GroupsFrom(conn, h, 1, MaxLevel(h)).value;
    assert Nest(conn, h) == RootNest(conn, h[0], below);
    if IsDataset(conn.lookup(h[0].name)) {
      assert Nest(conn, h).value == map[h[0].name := NodeOf(conn.lookup(h[0].name).pkg, h[0], below)];
    } else {
      assert Nest(conn, h).value == map[];
    }
  }

  /** The nesting loop: groups built level by level from the deepest, then the root. */
  method BuildNested(conn: Connection, h: seq<Entry>) returns (result: Result<map<Ref, Node>>)
    requires RootFirst(h)
    ensures result == Nest(conn, h)
  {
    var lowest := MaxLevel(h);
    assert h[0] in h;
    var below := GroupLevels(conn, h, lowest);
    if below.Err? {
      return Err(below.failure);
    }
    var nested := below.value;
    RootLevel(h);
    var root := h[0];
    var look := conn.lookup(root.name);
    if look.LookupNotAuthorized? {
      return Err(NotAuthorized);
    }
    result := Ok(map[]);
    if look.Found? && look.pkg.kind == Some("dataset") {
      result := Ok(map[root.name := NodeOf(look.pkg, root, nested)]);
    }
  }

  /** Levels `lowest` down to 1, each grouped over the groups of the level below it. */
  method GroupLevels(conn: Connection, h: seq<Entry>, lowest: int) returns (result: Result<Groups>)
    requires lowest >= 0
    ensures result == GroupsFrom(conn, h, 1, lowest)
  {
    var nested: Groups := map[];
    var i := lowest;
    while i >= 1
      invariant 0 <= i <= lowest
      invariant GroupsFrom(conn, h, i + 1, lowest) == Ok(nested)
      decreases i
    {
      var current := LevelEntries(h, i);
      var level := GroupLevel(conn, current, nested);
      assert GroupsFrom(conn, h, i, lowest) == level;
      if level.Err? {
        GroupsFromErrPersists(conn, h, i, lowest);
        return level;
      }
      nested := level.value;
      i := i - 1;
    }
    result := Ok(nested);
  }

  /** One pass of the inner loop: the groups of one level, built in place in `tmp`. */
  method GroupLevel(conn: Connection, current: seq<Entry>, nested: Groups) returns (result: Result<Groups>)
    ensures result == Group(current, nested, conn)
  {
    var tmp: Groups := map[];
    for k := 0 to |current|
      invariant Group(current[..k], nested, conn) == Ok(tmp)
    {
      var e := current[k];
      assert current[..k + 1][..k] == current[..k];
      var look := conn.lookup(e.name);
      if look.LookupNotAuthorized? {
        GroupErrPersists(current, k + 1, nested, conn);
        return Err(NotAuthorized);
      }
      if look.Found? && look.pkg.kind == Some("dataset") {
        var node := NodeOf(look.pkg, e, nested);
        if e.parent in tmp {
          tmp := tmp[e.parent := tmp[e.parent][e.name := node]];
        } else {
          tmp := tmp[e.parent := map[e.name := node]];
        }
      }
    }
    assert current[..|current|] == current;
    result := Ok(tmp);
  }

  // ---------------------------------------------------------------------
  // The whole of `get_hierarchy_show` / `get_hierarchy_search`

  /**
   * The root: the package's own name when the upward list is empty or its
   * first object is None, and that object otherwise.
   */
  function RootName(conn: Connection, id: Ref, top: seq<Relationship>): Result<Ref> {
    if top == [] || top[0].obj.None? then
      match conn.lookup(id)
      case Found(p) => Ok(p.name)
      case LookupNotFound => Err(NotFound)
      case LookupNotAuthorized => Err(NotAuthorized)
    else Ok(top[0].obj)
  }

  /** The flat list: the root at level 0 with no parent, then its descendants from level 1. */
  function FlatHierarchy(conn: Connection, root: Ref, ghost down: Ref -> nat): (h: seq<Entry>)
    requires RanksChildren(conn, down)
    ensures RootFirst(h)
    ensures h[0] == Entry(root, None, 0)
  {
    DescendantLevels(conn, root, 1, down);
    var h := [Entry(root, None, 0)] + Descendants(conn, root, 1, down);
    assert h[1..] == Descendants(conn, root, 1, down);
    h
  }

  function HierarchyOf(conn: Connection, id: Ref, ghost up: Ref -> nat, ghost down: Ref -> nat)
    : Result<map<Ref, Node>>
    requires RanksParents(conn, up) && RanksChildren(conn, down)
  {
    match TopLevelParent(conn, id, [], up)
    case Err(f) => Err(f)
    case Ok(top) =>
      match RemoveWhileIterating(conn, ByEndpoints, top, 0)
      case Err(f) => Err(f)
      case Ok(filtered) =>
        match RootName(conn, id, filtered)
        case Err(f) => Err(f)
        case Ok(root) => Nest(conn, FlatHierarchy(conn, root, down))
  }

  /**
   * `get_hierarchy_show` / `get_hierarchy_search`: climb to the top-level
   * parent, filter its relationships, choose the root, collect the flat list
   * downward from it and nest it.
   */
  method GetHierarchy(conn: Connection, id: Ref, ghost up: Ref -> nat, ghost down: Ref -> nat)
    returns (result: Result<map<Ref, Node>>)
    requires RanksParents(conn, up) && RanksChildren(conn, down)
    ensures result == HierarchyOf(conn, id, up, down)
  {
    var top := TopLevelParent(conn, id, [], up);
    if top.Err? {
      return Err(top.failure);
    }
    var filtered := RemovePrivateRelationships(conn, top.value, ByEndpoints);
    if filtered.Err? {
      return Err(filtered.failure);
    }
    var rootName := RootName(conn, id, filtered.value);
    if rootName.Err? {
      return Err(rootName.failure);
    }
    var list := new HierarchyList();
    list.Collect(conn, rootName.value, 1, down);
    var hierarchy := [Entry(rootName.value, None, 0)] + list.entries;
    assert hierarchy == FlatHierarchy(conn, rootName.value, down);
    result := BuildNested(conn, hierarchy);
  }

  /** The hierarchy has at most one top-level node, at level 0 with no parent. */
  lemma HierarchyHasOneRoot(conn: Connection, id: Ref, up: Ref -> nat, down: Ref -> nat)
    requires RanksParents(conn, up) && RanksChildren(conn, down)
    requires HierarchyOf(conn, id, up, down).Ok?
    ensures var t := HierarchyOf(conn, id, up, down).value;
            (forall n, m :: n in t && m in t ==> n == m)
            && forall n :: n in t ==> t[n].level == 0 && t[n].parent == None
  {
    var top := TopLevelParent(conn, id, [], up).value;
    var filtered := RemoveWhileIterating(conn, ByEndpoints, top, 0).value;
    var root := RootName(conn, id, filtered).value;
    NestShape(conn, FlatHierarchy(conn, root, down));
  }
}
