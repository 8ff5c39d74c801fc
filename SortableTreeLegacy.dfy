/**
 * The older sortable-tree concern: `execute_movements` with inclusive range
 * bounds, under which a movement to a valid position keeps every parent's
 * children numbered densely, and `update_with_movement!`, which falls back
 * to the number of roots when the new parent cannot be found (the movement
 * then raises in ancestry's parent lookup).
 */
module SortableTreeLegacy {
  import opened Wrappers
  import opened TreeTable
  import SortableTree

  /** One movement as the older file performs it; the bounds of the sibling queries are inclusive. */
  function Step(t: Table, m: Movement, sequenced: bool): (r: Table)
    requires m.id in t
  {
    if !sequenced then t[m.id := Node(m.parentId, t[m.id].sequence)]
    else
      var t1 := SortableTree.Placeholder(t, m);
      var t2 :=
        if t[m.id].parent == m.parentId then
          Shifted(t1, Within(t1, t[m.id], m.destSeq), if m.destSeq > t[m.id].sequence then -1 else 1)
        else
          var tOrigin := Shifted(t1, AtOrAfter(t1, t[m.id].parent, m.id, t[m.id].sequence), -1);
          Shifted(tOrigin, AtOrAfter(tOrigin, m.parentId, m.id, m.destSeq), 1);
      t2[m.id := Node(m.parentId, m.destSeq)]
  }

  /** Siblings of `item` whose value lies between its old value and `dst`, both included. */
  function Within(t: Table, item: Node, dst: int): set<Id> {
    var lo, hi := Min(item.sequence, dst), Max(item.sequence, dst);
    set k | k in t && t[k].parent == item.parent && lo <= t[k].sequence <= hi
  }

  /** Children of `p` other than `id` numbered `v` or later. */
  function AtOrAfter(t: Table, p: Option<Id>, id: Id, v: int): set<Id> {
    set k | k in t && t[k].parent == p && k != id && t[k].sequence >= v
  }

  /**
   * The movements applied in list order, or the error of the first movement
   * that raises, which rolls the whole transaction back.
   */
  function ApplyAll(t: Table, movements: seq<Movement>, sequenced: bool): Result<Table, Outcome>
    decreases |movements|
  {
    if movements == [] then Ok(t)
    else if MovementError(t, movements[0]).Some? then Err(MovementError(t, movements[0]).value)
    else ApplyAll(Step(t, movements[0], sequenced), movements[1..], sequenced)
  }

  /** What a sequenced movement does to one other record. */
  function Delta(t: Table, m: Movement, k: Id): int
    requires m.id in t && k in t
  {
    var item, node := t[m.id], t[k];
    var src, dst := item.sequence, m.destSeq;
    if item.parent == m.parentId then
      if node.parent == item.parent && dst > src && src <= node.sequence <= dst then -1
      else if node.parent == item.parent && dst <= src && dst <= node.sequence <= src then 1
      else 0
    else if node.parent == item.parent && node.sequence >= src then -1
    else if node.parent == m.parentId && node.sequence >= dst then 1
    else 0
  }

  /** `u` is `t` after the sequenced movement `m`, described record by record. */
  predicate Moved(t: Table, m: Movement, u: Table)
    requires m.id in t
  {
    u.Keys == t.Keys && u[m.id] == Node(m.parentId, m.destSeq) &&
    forall k :: k in t && k != m.id ==> u[k] == Node(t[k].parent, t[k].sequence + Delta(t, m, k))
  }

  /** A sequenced movement, record by record: the item lands at its destination and every other record moves by `Delta`. */
  lemma StepMatchesDelta(t: Table, m: Movement)
    requires m.id in t
    ensures Step(t, m, true).Keys == t.Keys
    ensures Step(t, m, true)[m.id] == Node(m.parentId, m.destSeq)
    ensures forall k :: k in t && k != m.id ==> Step(t, m, true)[k] == Node(t[k].parent, t[k].sequence + Delta(t, m, k))
  {
  }

  /**
   * A movement to a position that exists under the destination parent (one of
   * `0 .. count - 1` among the current siblings, or `0 .. count` under a new
   * parent) keeps every parent's children numbered `0 .. count - 1`.
   */
  lemma StepKeepsDense(t: Table, m: Movement)
    requires m.id in t && AllDense(t)
    requires t[m.id].parent == m.parentId ==> 0 <= m.destSeq < |Children(t, m.parentId)|
    requires t[m.id].parent != m.parentId ==> 0 <= m.destSeq <= |Children(t, m.parentId)|
    ensures AllDense(Step(t, m, true))
  {
    var u := Step(t, m, true);
    StepMatchesDelta(t, m);
    assert Moved(t, m, u);
    var p0, p1 := t[m.id].parent, m.parentId;
    forall p
      ensures Dense(u, p)
    {
      assert Dense(t, p);
      if p == p0 && p == p1 {
        SameParentDense(t, m, u);
      } else if p == p0 {
        OriginDense(t, m, u);
      } else if p == p1 {
        assert Dense(t, p0);
        DestinationDense(t, m, u);
      } else {
        OtherParentDense(t, m, u, p);
      }
    }
  }

  /** A parent that is neither the origin nor the destination keeps its children and their numbers. */
  lemma OtherParentDense(t: Table, m: Movement, u: Table, q: Option<Id>)
    requires m.id in t && Moved(t, m, u)
    requires q != t[m.id].parent && q != m.parentId && Dense(t, q)
    ensures Dense(u, q)
  {
    ChildrenMoved(t, m, u, q);
  }

  /** Who `q`'s children are after the movement: the same records, except that the item now belongs to the new parent. */
  lemma ChildrenMoved(t: Table, m: Movement, u: Table, q: Option<Id>)
    requires m.id in t && Moved(t, m, u)
    ensures Children(u, q) == if q == m.parentId then Children(t, q) + {m.id} else Children(t, q) - {m.id}
  {
    forall k
      ensures k in Children(u, q) <==> k in (if q == m.parentId then Children(t, q) + {m.id} else Children(t, q) - {m.id})
    {
      if k in t && k != m.id {
        assert u[k].parent == t[k].parent;
      }
    }
  }

  lemma SameParentDense(t: Table, m: Movement, u: Table)
    requires m.id in t && Moved(t, m, u) && t[m.id].parent == m.parentId
    requires Dense(t, m.parentId) && 0 <= m.destSeq < |Children(t, m.parentId)|
    ensures Dense(u, m.parentId)
  {
    var p := m.parentId;
    ChildrenMoved(t, m, u, p);
    assert m.id in Children(t, p);
    assert Children(u, p) == Children(t, p);
    var n := |Children(t, p)|;
    forall a | a in u && u[a].parent == p
      ensures 0 <= u[a].sequence < n
    {
      if a != m.id {
        assert a in Children(t, p);
        assert t[a].sequence != t[m.id].sequence;
      }
    }
    forall a, b | a in u && b in u && a != b && u[a].parent == p && u[b].parent == p
      ensures u[a].sequence != u[b].sequence
    {
      if a != m.id {
        assert t[a].sequence != t[m.id].sequence;
      }
      if b != m.id {
        assert t[b].sequence != t[m.id].sequence;
      }
    }
  }

  lemma OriginDense(t: Table, m: Movement, u: Table)
    requires m.id in t && Moved(t, m, u) && t[m.id].parent != m.parentId
    requires Dense(t, t[m.id].parent)
    ensures Dense(u, t[m.id].parent)
  {
    var p := t[m.id].parent;
    ChildrenMoved(t, m, u, p);
    CardRemove(Children(t, p), m.id);
    forall a | a in u && u[a].parent == p
      ensures 0 <= u[a].sequence < |Children(t, p)| - 1
    {
      assert a in Children(t, p);
      assert t[a].sequence != t[m.id].sequence;
    }
    forall a, b | a in u && b in u && a != b && u[a].parent == p && u[b].parent == p
      ensures u[a].sequence != u[b].sequence
    {
      assert t[a].sequence != t[b].sequence;
    }
  }

  lemma DestinationDense(t: Table, m: Movement, u: Table)
    requires m.id in t && Moved(t, m, u) && t[m.id].parent != m.parentId
    requires Dense(t, m.parentId) && 0 <= m.destSeq <= |Children(t, m.parentId)|
    ensures Dense(u, m.parentId)
  {
    var p := m.parentId;
    ChildrenMoved(t, m, u, p);
    assert m.id !in Children(t, p);
    forall a | a in u && u[a].parent == p
      ensures 0 <= u[a].sequence < |Children(t, p)| + 1
    {
      if a != m.id {
        assert a in Children(t, p);
      }
    }
    forall a, b | a in u && b in u && a != b && u[a].parent == p && u[b].parent == p
      ensures u[a].sequence != u[b].sequence
    {
    }
  }

  lemma CardRemove(s: set<Id>, x: Id)
    requires x in s
    ensures |s - {x}| == |s| - 1
  {
    assert s == (s - {x}) + {x};
  }

  /** Moving a record to the end of an existing parent's children, or of the roots, keeps the numbering dense. */
  lemma EndOfChildrenKeepsDense(t: Table, id: Id, newParent: Option<Id>)
    requires id in t && AllDense(t) && newParent != t[id].parent
    ensures AllDense(Step(t, Movement(id, newParent, |Children(t, newParent)|), true))
  {
    StepKeepsDense(t, Movement(id, newParent, |Children(t, newParent)|));
  }

  /** The sequenced movement within one parent, as the update loops perform it. */
  method MoveAmongSiblings(t: Table, rows: seq<Id>, m: Movement) returns (r: Table)
    requires NoDuplicates(rows) && forall k :: k in t <==> k in rows
    requires m.id in t && t[m.id].parent == m.parentId
    ensures r.Keys == t.Keys
    ensures r == Step(t, m, true)
  {
    var item := t[m.id];
    r := SortableTree.Placeholder(t, m);
    r := ShiftSeqs(r, rows, Within(r, item, m.destSeq), if m.destSeq > item.sequence then -1 else 1);
    r := r[m.id := Node(m.parentId, m.destSeq)];
  }

  /** The sequenced movement to a different parent: old siblings close the gap, new siblings open one. */
  method MoveToOtherParent(t: Table, rows: seq<Id>, m: Movement) returns (r: Table)
    requires NoDuplicates(rows) && forall k :: k in t <==> k in rows
    requires m.id in t && t[m.id].parent != m.parentId
    ensures r.Keys == t.Keys
    ensures r == Step(t, m, true)
  {
    var item := t[m.id];
    r := SortableTree.Placeholder(t, m);
    r := ShiftSeqs(r, rows, AtOrAfter(r, item.parent, m.id, item.sequence), -1);
    r := ShiftSeqs(r, rows, AtOrAfter(r, m.parentId, m.id, m.destSeq), 1);
    r := r[m.id := Node(m.parentId, m.destSeq)];
  }

  class Tree {
    var records: Table
    /** The table's rows in the order its queries walk them; movements never add or remove rows. */
    const rows: seq<Id>
    /** Whether the model was declared with a `sequence` column (`false` by default). */
    const sequenced: bool

    /** Every record appears in `rows` exactly once. */
    ghost predicate Valid()
      reads this
    {
      NoDuplicates(rows) && forall k :: k in records <==> k in rows
    }

    constructor(records: Table, rows: seq<Id>, sequenced: bool)
      requires NoDuplicates(rows) && forall k :: k in records <==> k in rows
      ensures Valid()
      ensures this.records == records && this.rows == rows && this.sequenced == sequenced
    {
      this.records := records;
      this.rows := rows;
      this.sequenced := sequenced;
    }

    /** One movement of `execute_movements`, on a record that exists. */
    method ApplyMovement(m: Movement)
      requires Valid() && m.id in records
      modifies this
      ensures Valid()
      ensures records == Step(old(records), m, sequenced)
    {
      if !sequenced {
        records := records[m.id := Node(m.parentId, records[m.id].sequence)];
      } else if records[m.id].parent == m.parentId {
        records := MoveAmongSiblings(records, rows, m);
      } else {
        records := MoveToOtherParent(records, rows, m);
      }
    }

    /** `execute_movements`: all movements in order inside one transaction. */
    method ExecuteMovements(movements: seq<Movement>) returns (r: Outcome)
      requires Valid()
      modifies this
      ensures Valid()
      ensures r == Done <==> ApplyAll(old(records), movements, sequenced).Ok?
      ensures r == Done ==> records == ApplyAll(old(records), movements, sequenced).value
      ensures r != Done ==> r == ApplyAll(old(records), movements, sequenced).error && records == old(records)
    {
      var saved := records;
      var i := 0;
      while i < |movements|
        invariant 0 <= i <= |movements|
        invariant Valid()
        invariant ApplyAll(saved, movements, sequenced) == ApplyAll(records, movements[i..], sequenced)
      {
        var m := movements[i];
        assert movements[i..][0] == m && movements[i..][1..] == movements[i + 1..];
        var e := MovementError(records, m);
        if e.Some? {
          records := saved;
          return e.value;
        }
        ApplyMovement(m);
        i := i + 1;
      }
      assert movements[i..] == [];
      return Done;
    }

    /**
     * The movement part of `update_with_movement!` for an existing record:
     * nothing when the parent is unchanged; otherwise a movement to the end of
     * the new parent's children, or to the end of the roots when there is no
     * such parent record. That movement then raises in ancestry's
     * `parent_id=` when the parent does not exist, and ancestry refuses a new
     * parent that is the record itself or one of its descendants.
     */
    method UpdateWithMovement(id: Id, newParent: Option<Id>) returns (r: Outcome)
      requires Valid() && id in records
      modifies this
      ensures Valid()
      ensures newParent == old(records)[id].parent ==> r == Done && records == old(records)
      ensures newParent != old(records)[id].parent && newParent.Some? && newParent.value !in old(records) ==>
        r == RecordNotFound(newParent.value) && records == old(records)
      ensures (newParent != old(records)[id].parent && newParent.Some? && newParent.value in old(records) &&
               AtOrBelow(old(records), newParent.value, id, |old(records)|)) ==>
        r == RecordInvalid(id) && records == old(records)
      ensures (newParent != old(records)[id].parent &&
               (newParent.None? || (newParent.value in old(records) && !AtOrBelow(old(records), newParent.value, id, |old(records)|)))) ==>
        r == Done &&
        records == Step(old(records), Movement(id, newParent, |Children(old(records), EndOf(old(records), newParent))|), sequenced)
    {
      if newParent == records[id].parent {
        return Done;
      }
      var destSeq := |Children(records, EndOf(records, newParent))|;
      r := ExecuteMovements([Movement(id, newParent, destSeq)]);
      assert [Movement(id, newParent, destSeq)][1..] == [];
    }
  }

  /** Whose children count as the destination's: the new parent when it exists, the roots otherwise. */
  function EndOf(t: Table, newParent: Option<Id>): (r: Option<Id>)
    ensures newParent.Some? && newParent.value in t ==> r == newParent
    ensures (newParent.None? || newParent.value !in t) ==> r.None?
  {
    if newParent.Some? && newParent.value in t then newParent else None
  }
}
