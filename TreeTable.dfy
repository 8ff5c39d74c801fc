/**
 * The table both sortable-tree concerns work on, held in memory: each record
 * id maps to its parent id (nil for a root) and its sequence value. Siblings
 * are the records sharing a parent id.
 */
module TreeTable {
  import opened Wrappers

  type Id = int

  datatype Node = Node(parent: Option<Id>, sequence: int)

  type Table = map<Id, Node>

  /** One element of the movements list: the record, its new parent, and its destination sequence value (after `to_i`). */
  datatype Movement = Movement(id: Id, parentId: Option<Id>, destSeq: int)

  /**
   * How `execute_movements` ends: committed, or rolled back by RecordNotFound
   * (from `find`, or from ancestry's `parent_id=` looking the new parent up)
   * or by RecordInvalid (ancestry's rule that a record cannot be its own
   * descendant).
   */
  datatype Outcome = Done | RecordNotFound(id: Id) | RecordInvalid(id: Id)

  /**
   * `p` is `id` or lies below it: walking up the parent links from `p`
   * reaches `id` within `fuel` steps. Ancestry stores each record's ancestor
   * path, so on a table it keeps the links form no cycle and `|t|` steps
   * reach every ancestor.
   */
  predicate AtOrBelow(t: Table, p: Id, id: Id, fuel: nat)
    decreases fuel
  {
    p == id || (fuel > 0 && p in t && t[p].parent.Some? && AtOrBelow(t, t[p].parent.value, id, fuel - 1))
  }

  /**
   * The error a movement raises before anything of it is saved: `find` on an
   * unknown record, ancestry's lookup of an unknown parent, or the new parent
   * being the record itself or one of its descendants.
   */
  function MovementError(t: Table, m: Movement): (r: Option<Outcome>)
    ensures r.None? <==> m.id in t && (m.parentId.Some? ==> m.parentId.value in t && !AtOrBelow(t, m.parentId.value, m.id, |t|))
    ensures m.id !in t ==> r == Some(RecordNotFound(m.id))
    ensures m.id in t && m.parentId.Some? && m.parentId.value !in t ==> r == Some(RecordNotFound(m.parentId.value))
    ensures m.id in t && m.parentId.Some? && m.parentId.value in t && AtOrBelow(t, m.parentId.value, m.id, |t|) ==>
      r == Some(RecordInvalid(m.id))
  {
    if m.id !in t then Some(RecordNotFound(m.id))
    else if m.parentId.Some? && m.parentId.value !in t then Some(RecordNotFound(m.parentId.value))
    else if m.parentId.Some? && AtOrBelow(t, m.parentId.value, m.id, |t|) then Some(RecordInvalid(m.id))
    else None
  }

  /** A record cannot be moved under itself. */
  lemma UnderItselfRefused(t: Table, id: Id, destSeq: int)
    requires id in t
    ensures MovementError(t, Movement(id, Some(id), destSeq)) == Some(RecordInvalid(id))
  {
  }

  /** A record cannot be moved under one of its children or grandchildren. */
  lemma UnderDescendantRefused(t: Table, id: Id, child: Id, grandchild: Id, destSeq: int)
    requires id in t && child in t && grandchild in t
    requires t[child].parent == Some(id) && t[grandchild].parent == Some(child)
    ensures MovementError(t, Movement(id, Some(child), destSeq)) == Some(RecordInvalid(id))
    ensures MovementError(t, Movement(id, Some(grandchild), destSeq)) == Some(RecordInvalid(id))
  {
    assert AtOrBelow(t, child, id, |t|);
    if grandchild != id && child != id {
      assert grandchild != child;
      var three := {id, child, grandchild};
      assert |three| == 3;
      assert t.Keys == three + (t.Keys - three) && three * (t.Keys - three) == {};
      assert |t.Keys| >= 3;
      assert AtOrBelow(t, child, id, |t| - 1);
    }
    assert AtOrBelow(t, grandchild, id, |t|);
  }

  /** The records whose parent is `p`: `p`'s children, or the roots when `p` is nil. */
  function Children(t: Table, p: Option<Id>): set<Id> {
    set k | k in t && t[k].parent == p
  }

  /** The table with `delta` added to the sequence value of each record in `ks`. */
  function Shifted(t: Table, ks: set<Id>, delta: int): Table {
    map k | k in t :: if k in ks then Node(t[k].parent, t[k].sequence + delta) else t[k]
  }

  predicate NoDuplicates(order: seq<Id>) {
    forall i, j :: 0 <= i < j < |order| ==> order[i] != order[j]
  }

  /**
   * The update loop over a batch of siblings. `order` lists the table's rows
   * as the query walks them; each selected row is saved on its own, so the
   * order does not change the result.
   */
  method ShiftSeqs(t: Table, order: seq<Id>, ks: set<Id>, delta: int) returns (r: Table)
    requires NoDuplicates(order) && forall k :: k in t ==> k in order
    ensures r.Keys == t.Keys
    ensures r == Shifted(t, ks, delta)
  {
    r := t;
    ghost var done: set<Id> := {};
    var i := 0;
    while i < |order|
      invariant 0 <= i <= |order|
      invariant r.Keys == t.Keys
      invariant forall j :: 0 <= j < i ==> order[j] in done
      invariant forall j :: i <= j < |order| ==> order[j] !in done
      invariant forall k :: k in t ==> r[k] == if k in ks && k in done then Node(t[k].parent, t[k].sequence + delta) else t[k]
    {
      var k := order[i];
      if k in ks && k in r {
        r := r[k := Node(r[k].parent, r[k].sequence + delta)];
      }
      done := done + {k};
      i := i + 1;
    }
    assert forall k :: k in t ==> r[k] == Shifted(t, ks, delta)[k];
  }

  function Min(a: int, b: int): int { if a <= b then a else b }
  function Max(a: int, b: int): int { if a <= b then b else a }

  /** The sequence values of `p`'s children are pairwise different. */
  predicate SeqsDistinct(t: Table, p: Option<Id>) {
    forall a, b :: a in t && b in t && a != b && t[a].parent == p && t[b].parent == p ==> t[a].sequence != t[b].sequence
  }

  /** The sequence values of `p`'s children lie in `0 .. count - 1`. */
  predicate SeqsInRange(t: Table, p: Option<Id>) {
    forall a :: a in t && t[a].parent == p ==> 0 <= t[a].sequence < |Children(t, p)|
  }

  /** Dense numbering: `p`'s children are numbered `0 .. count - 1`, each value once. */
  predicate Dense(t: Table, p: Option<Id>) {
    SeqsDistinct(t, p) && SeqsInRange(t, p)
  }

  ghost predicate AllDense(t: Table) {
    forall p :: Dense(t, p)
  }
}
