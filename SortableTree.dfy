/**
 * The sortable-tree concern loaded by the gem: `execute_movements` renumbers
 * siblings with strict range bounds, and `update_with_movement!` moves a
 * record to the end of its new parent's children.
 */
module SortableTree {
  import opened Wrappers
  import opened TreeTable

  /**
   * One movement, step by step as the source performs it: the item gets the
   * new parent and a placeholder sequence value, the affected siblings are
   * shifted, and the item gets its destination value. Without a sequence
   * column only the parent changes.
   */
  function Step(t: Table, m: Movement, sequenced: bool): (r: Table)
    requires m.id in t
  {
    if !sequenced then t[m.id := Node(m.parentId, t[m.id].sequence)]
    else
      var t1 := Placeholder(t, m);
      var t2 :=
        if t[m.id].parent == m.parentId then
          Shifted(t1, Between(t1, t[m.id], m.destSeq), if m.destSeq > t[m.id].sequence then -1 else 1)
        else
          var tOrigin := Shifted(t1, After(t1, t[m.id].parent, m.id, t[m.id].sequence), -1);
          Shifted(tOrigin, After(tOrigin, m.parentId, m.id, m.destSeq), 1);
      t2[m.id := Node(m.parentId, m.destSeq)]
  }

  /** The item under its new parent with a sequence value past every sibling's, so no value is shared while the others shift. */
  function Placeholder(t: Table, m: Movement): Table {
    t[m.id := Node(m.parentId, m.destSeq + |t| + 1)]
  }

  /** Siblings of `item` strictly between its old value and `dst`. */
  function Between(t: Table, item: Node, dst: int): set<Id> {
    var lo, hi := Min(item.sequence, dst), Max(item.sequence, dst);
    set k | k in t && t[k].parent == item.parent && lo < t[k].sequence < hi
  }

  /** Children of `p` other than `id` numbered strictly after `v`. */
  function After(t: Table, p: Option<Id>, id: Id, v: int): set<Id> {
    set k | k in t && t[k].parent == p && k != id && t[k].sequence > v
  }

  /**
   * The movements applied in list order, or the error of the first movement
   * that raises, which rolls the whole transaction back.
   */
  function ApplyAll(t: Table, movements: seq<Movement>, sequenced: bool): Result<Table, Outcome>
    decreases |movements|
  {
    if movements == [] then Ok(t)
    else if MovementError(t, movements[0]).Some? then Err(MovementError(t, movements[0]).value)
    else ApplyAll(Step(t, movements[0], sequenced), movements[1..], sequenced)
  }

  /**
   * What a movement does to one other record, stated per record: a sibling
   * strictly between the source and destination values moves one place
   * towards the source; on a change of parent, later old siblings move down
   * and later new siblings move up.
   */
  function Delta(t: Table, m: Movement, k: Id): int
    requires m.id in t && k in t
  {
    var item, node := t[m.id], t[k];
    var src, dst := item.sequence, m.destSeq;
    if item.parent == m.parentId then
      if node.parent == item.parent && dst > src && src < node.sequence < dst then -1
      else if node.parent == item.parent && dst <= src && dst < node.sequence < src then 1
      else 0
    else if node.parent == item.parent && node.sequence > src then -1
    else if node.parent == m.parentId && node.sequence > dst then 1
    else 0
  }

  /** A sequenced movement, record by record: the item lands at its destination and every other record moves by `Delta`. */
  lemma StepMatchesDelta(t: Table, m: Movement)
    requires m.id in t
    ensures Step(t, m, true).Keys == t.Keys
    ensures Step(t, m, true)[m.id] == Node(m.parentId, m.destSeq)
    ensures forall k :: k in t && k != m.id ==> Step(t, m, true)[k] == Node(t[k].parent, t[k].sequence + Delta(t, m, k))
  {
  }

  /** Without a sequence column a movement only reassigns the parent. */
  lemma UnsequencedOnlyReparents(t: Table, m: Movement)
    requires m.id in t
    ensures Step(t, m, false) == t[m.id := Node(m.parentId, t[m.id].sequence)]
  {
  }

  /** Records that are siblings of neither the old nor the new position keep their values. */
  lemma UninvolvedUnchanged(t: Table, m: Movement, k: Id)
    requires m.id in t && k in t && k != m.id
    requires t[k].parent != t[m.id].parent && t[k].parent != m.parentId
    ensures Step(t, m, true)[k] == t[k]
  {
    StepMatchesDelta(t, m);
  }

  /**
   * The strict bounds break dense numbering: with four roots numbered 0 to 3,
   * moving the first to position 2 leaves it sharing 2 with the third.
   */
  lemma StrictBoundsCollide()
    ensures var t := map[1 := Node(None, 0), 2 := Node(None, 1), 3 := Node(None, 2), 4 := Node(None, 3)];
      AllDense(t) && Step(t, Movement(1, None, 2), true)[1].sequence == Step(t, Movement(1, None, 2), true)[3].sequence &&
      !Dense(Step(t, Movement(1, None, 2), true), None)
  {
    var t := map[1 := Node(None, 0), 2 := Node(None, 1), 3 := Node(None, 2), 4 := Node(None, 3)];
    var m := Movement(1, None, 2);
    assert Children(t, None) == {1, 2, 3, 4};
    forall p ensures Dense(t, p) {
      if p != None {
        assert Children(t, p) == {};
      }
    }
    StepMatchesDelta(t, m);
    assert Delta(t, m, 3) == 0;
    var r := Step(t, m, true);
    assert r[1].sequence == 2 && r[3].sequence == 2 && r[1].parent == None && r[3].parent == None;
  }

  /** The sequenced movement within one parent, as the update loops perform it. */
  method MoveAmongSiblings(t: Table, rows: seq<Id>, m: Movement) returns (r: Table)
    requires NoDuplicates(rows) && forall k :: k in t <==> k in rows
    requires m.id in t && t[m.id].parent == m.parentId
    ensures r.Keys == t.Keys
    ensures r == Step(t, m, true)
  {
    var item := t[m.id];
    r := Placeholder(t, m);
    r := ShiftSeqs(r, rows, Between(r, item, m.destSeq), if m.destSeq > item.sequence then -1 else 1);
    r := r[m.id := Node(m.parentId, m.destSeq)];
  }

  /** The sequenced movement to a different parent: old siblings close the gap, new siblings open one. */
  method MoveToOtherParent(t: Table, rows: seq<Id>, m: Movement) returns (r: Table)
    requires NoDuplicates(rows) && forall k :: k in t <==> k in rows
    requires m.id in t && t[m.id].parent != m.parentId
    ensures r.Keys == t.Keys
    ensures r == Step(t, m, true)
  {
    var item := t[m.id];
    r := Placeholder(t, m);
    r := ShiftSeqs(r, rows, After(r, item.parent, m.id, item.sequence), -1);
    r := ShiftSeqs(r, rows, After(r, m.parentId, m.id, m.destSeq), 1);
    r := r[m.id := Node(m.parentId, m.destSeq)];
  }

  class Tree {
    var records: Table
    /** The table's rows in the order its queries walk them; movements never add or remove rows. */
    const rows: seq<Id>
    /** Whether the model was declared with a `sequence` column. */
    const sequenced: bool

    /** Every record appears in `rows` exactly once. */
    ghost predicate Valid()
      reads this
    {
      NoDuplicates(rows) && forall k :: k in records <==> k in rows
    }

    constructor(records: Table, rows: seq<Id>, sequenced: bool)
      requires NoDuplicates(rows) && forall k :: k in records <==> k in rows
      ensures Valid()
      ensures this.records == records && this.rows == rows && this.sequenced == sequenced
    {
      this.records := records;
      this.rows := rows;
      this.sequenced := sequenced;
    }

    /** One movement of `execute_movements`, on a record that exists. */
    method ApplyMovement(m: Movement)
      requires Valid() && m.id in records
      modifies this
      ensures Valid()
      ensures records == Step(old(records), m, sequenced)
    {
      if !sequenced {
        records := records[m.id := Node(m.parentId, records[m.id].sequence)];
      } else if records[m.id].parent == m.parentId {
        records := MoveAmongSiblings(records, rows, m);
      } else {
        records := MoveToOtherParent(records, rows, m);
      }
    }

    /** `execute_movements`: all movements in order inside one transaction. */
    method ExecuteMovements(movements: seq<Movement>) returns (r: Outcome)
      requires Valid()
      modifies this
      ensures Valid()
      ensures r == Done <==> ApplyAll(old(records), movements, sequenced).Ok?
      ensures r == Done ==> records == ApplyAll(old(records), movements, sequenced).value
      ensures r != Done ==> r == ApplyAll(old(records), movements, sequenced).error && records == old(records)
    {
      var saved := records;
      var i := 0;
      while i < |movements|
        invariant 0 <= i <= |movements|
        invariant Valid()
        invariant ApplyAll(saved, movements, sequenced) == ApplyAll(records, movements[i..], sequenced)
      {
        var m := movements[i];
        assert movements[i..][0] == m && movements[i..][1..] == movements[i + 1..];
        var e := MovementError(records, m);
        if e.Some? {
          records := saved;
          return e.value;
        }
        ApplyMovement(m);
        i := i + 1;
      }
      assert movements[i..] == [];
      return Done;
    }

    /**
     * The movement part of `update_with_movement!` for an existing record:
     * nothing when the parent is unchanged; otherwise a movement to the end of
     * the new parent's children (or of the roots). `find` raises when the new
     * parent does not exist, and ancestry refuses a new parent that is the
     * record itself or one of its descendants.
     */
    method UpdateWithMovement(id: Id, newParent: Option<Id>) returns (r: Outcome)
      requires Valid() && id in records
      modifies this
      ensures Valid()
      ensures newParent == old(records)[id].parent ==> r == Done && records == old(records)
      ensures newParent != old(records)[id].parent && newParent.Some? && newParent.value !in old(records) ==>
        r == RecordNotFound(newParent.value) && records == old(records)
      ensures (newParent != old(records)[id].parent && newParent.Some? && newParent.value in old(records) &&
               AtOrBelow(old(records), newParent.value, id, |old(records)|)) ==>
        r == RecordInvalid(id) && records == old(records)
      ensures (newParent != old(records)[id].parent &&
               (newParent.None? || (newParent.value in old(records) && !AtOrBelow(old(records), newParent.value, id, |old(records)|)))) ==>
        r == Done && records == Step(old(records), Movement(id, newParent, |Children(old(records), newParent)|), sequenced)
    {
      if newParent == records[id].parent {
        return Done;
      }
      if newParent.Some? && newParent.value !in records {
        return RecordNotFound(newParent.value);
      }
      var destSeq := |Children(records, newParent)|;
      ghost var before := records;
      r := ExecuteMovements([Movement(id, newParent, destSeq)]);
      assert [Movement(id, newParent, destSeq)][1..] == [];
    }
  }
}
