/**
 * The coach roster of the admin screens: the list of coaches in display order, the draft
 * being edited, drag-and-drop reordering with `order_index` re-stamped to positions, and
 * the write-back of the new order through one `updateCoach` per coach.
 *
 * The `coaches` table is a map from id to row. What the database answers to each request
 * is an input: a `Reply` per `updateCoach`, the id given to an inserted row (or `None` when
 * the insert fails), and the error flag and data of the list query.
 */
module Coaches {
  import opened Wrappers
  import opened Sequences
  import opened CoachRecord

  // ---------------------------------------------------------------------------
  // Reordering

  /**
   * `arrayMove(coaches, oldIndex, newIndex)` where both indices are found by id: the
   * dragged coach takes the target's place and the others keep their relative order.
   */
  function Reorder(cs: seq<Coach>, active: string, over: string): (r: seq<Coach>)
    requires active in Ids(cs) && over in Ids(cs)
    ensures |r| == |cs| && multiset(r) == multiset(cs)
    ensures r[FindIndex(Ids(cs), over)] == cs[FindIndex(Ids(cs), active)]
    ensures r[FindIndex(Ids(cs), over)].id == active
    ensures RemoveAt(r, FindIndex(Ids(cs), over)) == RemoveAt(cs, FindIndex(Ids(cs), active))
  {
    var from, to := FindIndex(Ids(cs), active), FindIndex(Ids(cs), over);
    MoveIsPermutation(cs, from, to);
    MoveKeepsOthersInOrder(cs, from, to);
    MoveLands(cs, from, to);
    Move(cs, from, to)
  }

  /** `newCoaches.map((coach, index) => ({ ...coach, order_index: index }))`. */
  function Restamp(cs: seq<Coach>): (r: seq<Coach>)
    ensures |r| == |cs|
    ensures forall i :: 0 <= i < |r| ==> r[i].orderIndex == i
    ensures forall i :: 0 <= i < |r| ==> r[i].(orderIndex := cs[i].orderIndex) == cs[i]
  {
    seq(|cs|, i requires 0 <= i < |cs| => cs[i].(orderIndex := i))
  }

  /**
   * The list after `handleDragEnd`: a drop with no target or onto the dragged coach
   * returns early; otherwise the list is reordered and re-stamped.
   */
  function DragEnd(cs: seq<Coach>, active: string, over: Option<string>): (r: seq<Coach>)
    requires over.Some? ==> active in Ids(cs) && over.value in Ids(cs)
    ensures |r| == |cs|
    ensures over.None? || over.value == active ==> r == cs
  {
    if over.None? || over.value == active then cs
    else Restamp(Reorder(cs, active, over.value))
  }

  /** The `order_index` of the re-stamped list depend only on positions, not on the old values. */
  lemma RestampForgetsIndices(a: seq<Coach>, b: seq<Coach>)
    requires |a| == |b|
    requires forall i :: 0 <= i < |a| ==> a[i].(orderIndex := 0) == b[i].(orderIndex := 0)
    ensures Restamp(a) == Restamp(b)
  {
    forall i | 0 <= i < |a| ensures Restamp(a)[i] == Restamp(b)[i] {
      assert a[i].(orderIndex := 0).(orderIndex := i) == a[i].(orderIndex := i);
      assert b[i].(orderIndex := 0).(orderIndex := i) == b[i].(orderIndex := i);
    }
  }

  /** A re-stamped list with the next draft appended is still stamped with positions. */
  lemma RestampAppendDraft(cs: seq<Coach>)
    ensures Restamp(Restamp(cs) + [NewDraft(|cs|)]) == Restamp(cs) + [NewDraft(|cs|)]
  {
    var s := Restamp(cs) + [NewDraft(|cs|)];
    forall i | 0 <= i < |s| ensures Restamp(s)[i] == s[i] {
      assert s[i].orderIndex == i;
    }
  }

  /**
   * A drop onto another coach: every `order_index` is the coach's new position, and the
   * ids are those of the old list with the dragged id moved to the target's position.
   */
  lemma DragEndReorders(cs: seq<Coach>, active: string, over: string)
    requires active in Ids(cs) && over in Ids(cs) && active != over
    ensures var r := DragEnd(cs, active, Some(over));
      && |r| == |cs|
      && (forall i :: 0 <= i < |r| ==> r[i].orderIndex == i)
      && Ids(r) == Move(Ids(cs), FindIndex(Ids(cs), active), FindIndex(Ids(cs), over))
      && r[FindIndex(Ids(cs), over)].id == active
      && multiset(Ids(r)) == multiset(Ids(cs))
  {
    var from, to := FindIndex(Ids(cs), active), FindIndex(Ids(cs), over);
    var m := Reorder(cs, active, over);
    IdsMove(cs, from, to);
    RestampKeepsIds(m);
    MoveIsPermutation(Ids(cs), from, to);
  }

  /** Re-stamping changes no id. */
  lemma RestampKeepsIds(cs: seq<Coach>)
    ensures Ids(Restamp(cs)) == Ids(cs)
  {
    assert forall i :: 0 <= i < |cs| ==> Ids(Restamp(cs))[i] == Ids(cs)[i];
  }

  /** Moving coaches moves their ids. */
  lemma IdsMove(cs: seq<Coach>, from: nat, to: nat)
    requires from < |cs| && to < |cs|
    ensures Ids(Move(cs, from, to)) == Move(Ids(cs), from, to)
  {
    forall k | 0 <= k < |cs| ensures Ids(Move(cs, from, to))[k] == Move(Ids(cs), from, to)[k] {
      MoveAt(cs, from, to, k);
      MoveAt(Ids(cs), from, to, k);
    }
  }

  // ---------------------------------------------------------------------------
  // The backend

  /**
   * What the database answers to one `updateCoach`: success, a failed update (nothing is
   * written), or a failed read-back after the update was written.
   */
  datatype Reply = Ok | UpdateError | VerifyError

  /** The table after a request, and whether the request threw. */
  datatype Written = Written(rows: map<string, Coach>, threw: bool)

  /**
   * `updateCoach(coach)`: update the row with the coach's id, then read it back with
   * `.single()`. With no such row the update matches nothing and the read-back fails.
   */
  function UpdateStep(rows: map<string, Coach>, c: Coach, reply: Reply): (r: Written)
    ensures r.threw <==> reply != Ok || c.id !in rows
    ensures r.rows.Keys == rows.Keys
    ensures forall k :: k in rows && k != c.id ==> r.rows[k] == rows[k]
    ensures c.id in rows ==> r.rows[c.id] == (if reply == UpdateError then rows[c.id] else c)
  {
    if reply == UpdateError then Written(rows, true)
    else if c.id !in rows then Written(rows, true)
    else Written(rows[c.id := c], reply == VerifyError)
  }

  /** The outcome of the persistence loop: the table, how many calls were made, whether one threw. */
  datatype Persisted = Persisted(rows: map<string, Coach>, issued: nat, threw: bool)

  /**
   * `for (const coach of updates) await updateCoach(coach)` from position `i` on, where
   * `replies[j]` is the answer to the call for `us[j]`: the loop stops at the first call
   * that throws. `issued` counts the calls made from the start of the list.
   */
  function PersistFrom(rows: map<string, Coach>, us: seq<Coach>, replies: seq<Reply>, i: nat): (r: Persisted)
    requires |replies| == |us| && i <= |us|
    ensures i <= r.issued <= |us| && r.rows.Keys == rows.Keys
    ensures !r.threw ==> r.issued == |us|
    ensures r.threw ==> r.issued > i
    decreases |us| - i
  {
    if i == |us| then Persisted(rows, i, false)
    else
      var s := UpdateStep(rows, us[i], replies[i]);
      if s.threw then Persisted(s.rows, i + 1, true)
      else PersistFrom(s.rows, us, replies, i + 1)
  }

  /** The whole write-back loop. */
  function PersistAll(rows: map<string, Coach>, us: seq<Coach>, replies: seq<Reply>): (r: Persisted)
    requires |replies| == |us|
    ensures r.issued <= |us| && r.rows.Keys == rows.Keys
    ensures !r.threw ==> r.issued == |us|
    ensures r.threw ==> r.issued >= 1
  {
    PersistFrom(rows, us, replies, 0)
  }

  /** The number of calls that returned normally. */
  function Completed(p: Persisted): nat
    requires p.threw ==> p.issued >= 1
  {
    if p.threw then p.issued - 1 else p.issued
  }

  /** `PersistPrefix` for the loop from position `i` on. */
  lemma {:induction false} PersistPrefixFrom(rows: map<string, Coach>, us: seq<Coach>, replies: seq<Reply>, i: nat)
    requires |replies| == |us| && i <= |us| && Distinct(Ids(us))
    requires forall id :: id in Ids(us) ==> id in rows
    ensures var r := PersistFrom(rows, us, replies, i); var k := Completed(r);
      && (forall j :: i <= j < k ==> replies[j] == Ok && r.rows[us[j].id] == us[j])
      && (r.threw ==> k < |us| && replies[k] != Ok)
      && (r.threw ==> r.rows[us[k].id] == (if replies[k] == VerifyError then us[k] else rows[us[k].id]))
      && (forall j :: k < j < |us| ==> r.rows[us[j].id] == rows[us[j].id])
      && (forall id :: id in rows && (forall m :: i <= m < |us| ==> us[m].id != id) ==> r.rows[id] == rows[id])
    decreases |us| - i
  {
    if i < |us| {
      var s := UpdateStep(rows, us[i], replies[i]);
      assert Ids(us)[i] == us[i].id;
      if !s.threw {
        PersistPrefixFrom(s.rows, us, replies, i + 1);
        var r := PersistFrom(s.rows, us, replies, i + 1);
        forall m | i < m < |us| ensures us[m].id != us[i].id {
          assert Ids(us)[i] != Ids(us)[m];
        }
        assert r.rows[us[i].id] == us[i];
      }
    }
  }

  /**
   * When every coach in the list has a row and the ids are distinct, the loop stops at
   * the first reply that is not `Ok`. The coaches before it hold their new row, the coaches
   * after it keep their old row, and the failing coach holds its new row exactly when the
   * update was written before the read-back failed. Rows of coaches not in the list keep
   * their value.
   */
  lemma PersistPrefix(rows: map<string, Coach>, us: seq<Coach>, replies: seq<Reply>)
    requires |replies| == |us| && Distinct(Ids(us))
    requires forall id :: id in Ids(us) ==> id in rows
    ensures var r := PersistAll(rows, us, replies); var k := Completed(r);
      && (forall i :: 0 <= i < k ==> replies[i] == Ok && r.rows[us[i].id] == us[i])
      && (r.threw ==> k < |us| && replies[k] != Ok)
      && (r.threw ==> r.rows[us[k].id] == (if replies[k] == VerifyError then us[k] else rows[us[k].id]))
      && (forall i :: k < i < |us| ==> r.rows[us[i].id] == rows[us[i].id])
      && (forall id :: id in rows && id !in Ids(us) ==> r.rows[id] == rows[id])
  {
    PersistPrefixFrom(rows, us, replies, 0);
  }

  /** When every reply is `Ok`, all calls are made and the table holds the whole list. */
  lemma PersistAllOk(rows: map<string, Coach>, us: seq<Coach>, replies: seq<Reply>)
    requires |replies| == |us| && Distinct(Ids(us))
    requires forall id :: id in Ids(us) ==> id in rows
    requires forall i :: 0 <= i < |replies| ==> replies[i] == Ok
    ensures var r := PersistAll(rows, us, replies);
      !r.threw && r.issued == |us| && forall i :: 0 <= i < |us| ==> r.rows[us[i].id] == us[i]
  {
    PersistPrefix(rows, us, replies);
  }

  /**
   * After a drop onto another coach whose write-back succeeds, the stored `order_index` of
   * every coach equals its position in the new list.
   */
  lemma StoredOrderMatchesList(rows: map<string, Coach>, cs: seq<Coach>, active: string, over: string, replies: seq<Reply>)
    requires active in Ids(cs) && over in Ids(cs) && active != over
    requires Distinct(Ids(cs)) && forall id :: id in Ids(cs) ==> id in rows
    requires |replies| == |cs| && forall i :: 0 <= i < |replies| ==> replies[i] == Ok
    ensures var us := DragEnd(cs, active, Some(over));
      forall i :: 0 <= i < |us| ==> us[i].id in rows && PersistAll(rows, us, replies).rows[us[i].id].orderIndex == i
  {
    var us := DragEnd(cs, active, Some(over));
    var from, to := FindIndex(Ids(cs), active), FindIndex(Ids(cs), over);
    DragEndReorders(cs, active, over);
    MoveDistinct(Ids(cs), from, to);
    MoveMembers(Ids(cs), from, to);
    PersistAllOk(rows, us, replies);
  }

  // ---------------------------------------------------------------------------
  // Drafts

  /** `handleAddNew`'s draft: no id, empty fields, visible, placed after `n` coaches. */
  function NewDraft(n: nat): (r: Coach)
    ensures r.id == "" && r.orderIndex == n && r.show
    ensures r.images == [] && r.qualifications == [] && r.achievements == []
    ensures r.socialLinks == SocialLinks(None, None, None)
  {
    Coach("", "", "", "", "", [], SocialLinks(None, None, None), n, true, FullBio("", "", ""), [], [])
  }

  // ---------------------------------------------------------------------------
  // The table and the screen

  /** The `coaches` table, and the log of every `updateCoach` made against it. */
  class Table {
    var rows: map<string, Coach>
    var updates: seq<Coach>

    constructor (rows: map<string, Coach>)
      ensures this.rows == rows && updates == []
    {
      this.rows := rows;
      updates := [];
    }

    /** One `updateCoach(c)`, answered by `reply`. */
    method UpdateCoach(c: Coach, reply: Reply) returns (threw: bool)
      modifies this
      ensures rows == UpdateStep(old(rows), c, reply).rows && threw == UpdateStep(old(rows), c, reply).threw
      ensures updates == old(updates) + [c]
    {
      var s := UpdateStep(rows, c, reply);
      rows := s.rows;
      threw := s.threw;
      updates := updates + [c];
    }

    /** The insert of a new row: `id` is the id the database gives it, `None` a failed insert. */
    method Insert(c: Coach, id: Option<string>)
      modifies this
      ensures id.None? ==> rows == old(rows)
      ensures id.Some? ==> rows == old(rows)[id.value := c.(id := id.value)]
      ensures updates == old(updates)
    {
      if id.Some? {
        rows := rows[id.value := c.(id := id.value)];
      }
    }
  }

  class AdminCoaches {
    /** `coaches`, in display order. */
    var coaches: seq<Coach>
    /** `editingCoach`: the form is shown while there is one. */
    var editing: Option<Coach>
    const table: Table

    constructor (table: Table)
      ensures coaches == [] && editing.None? && this.table == table
    {
      coaches := [];
      editing := None;
      this.table := table;
    }

    /** `fetchAllCoaches`: the list is replaced only when the query has no error and returned data. */
    method FetchAllCoaches(error: bool, data: Option<seq<Coach>>)
      modifies this
      ensures coaches == (if !error && data.Some? then data.value else old(coaches))
      ensures editing == old(editing)
    {
      if !error && data.Some? {
        coaches := data.value;
      }
    }

    /** `handleAddNew`: a draft placed after the current coaches. */
    method HandleAddNew()
      modifies this
      ensures editing == Some(NewDraft(|coaches|)) && coaches == old(coaches)
    {
      editing := Some(NewDraft(|coaches|));
    }

    /** The Edit button of a coach row (`onEdit={setEditingCoach}`). */
    method Edit(c: Coach)
      modifies this
      ensures editing == Some(c) && coaches == old(coaches)
    {
      editing := Some(c);
    }

    /** The form's cancel button. */
    method Cancel()
      modifies this
      ensures editing.None? && coaches == old(coaches)
    {
      editing := None;
    }

    /**
     * `handleSave(coach)`: a draft without an id is inserted, a coach with one goes through
     * `updateCoach`. When that does not throw, the list is fetched again and the form is
     * closed; when it throws, the error is caught and the list and form stay as they were.
     */
    method HandleSave(c: Coach, insertedId: Option<string>, reply: Reply, fetchError: bool, data: Option<seq<Coach>>)
      returns (saved: bool)
      modifies this, table
      ensures c.id == "" ==>
        saved == insertedId.Some? &&
        table.rows == (if saved then old(table.rows)[insertedId.value := c.(id := insertedId.value)] else old(table.rows)) &&
        table.updates == old(table.updates)
      ensures c.id != "" ==>
        saved == !UpdateStep(old(table.rows), c, reply).threw &&
        table.rows == UpdateStep(old(table.rows), c, reply).rows &&
        table.updates == old(table.updates) + [c]
      ensures saved ==> editing.None? && coaches == (if !fetchError && data.Some? then data.value else old(coaches))
      ensures !saved ==> editing == old(editing) && coaches == old(coaches)
    {
      if c.id == "" {
        table.Insert(c, insertedId);
        saved := insertedId.Some?;
      } else {
        var threw := table.UpdateCoach(c, reply);
        saved := !threw;
      }
      if saved {
        FetchAllCoaches(fetchError, data);
        editing := None;
      }
    }

    /** The write-back loop of `handleDragEnd`: one awaited `updateCoach` per coach, in order. */
    method Persist(us: seq<Coach>, replies: seq<Reply>) returns (issued: nat, threw: bool)
      requires |replies| == |us|
      modifies table
      ensures PersistAll(old(table.rows), us, replies) == Persisted(table.rows, issued, threw)
      ensures issued <= |us| && table.updates == old(table.updates) + us[..issued]
    {
      issued, threw := 0, false;
      while issued < |us|
        invariant issued <= |us|
        invariant table.updates == old(table.updates) + us[..issued]
        invariant PersistAll(old(table.rows), us, replies) == PersistFrom(table.rows, us, replies, issued)
      {
        threw := table.UpdateCoach(us[issued], replies[issued]);
        issued := issued + 1;
        if threw {
          return;
        }
      }
    }

    /**
     * `handleDragEnd(active, over)`: a drop with no target or onto itself changes nothing;
     * otherwise the re-stamped list replaces the local list before the first write, and
     * stays in place even when a write throws.
     */
    method HandleDragEnd(active: string, over: Option<string>, replies: seq<Reply>) returns (issued: nat, threw: bool)
      requires over.Some? ==> active in Ids(coaches) && over.value in Ids(coaches)
      requires |replies| == |coaches|
      modifies this, table
      ensures coaches == DragEnd(old(coaches), active, over) && editing == old(editing)
      ensures over.None? || over.value == active ==>
        issued == 0 && !threw && table.rows == old(table.rows) && table.updates == old(table.updates)
      ensures over.Some? && over.value != active ==>
        PersistAll(old(table.rows), coaches, replies) == Persisted(table.rows, issued, threw) &&
        table.updates == old(table.updates) + coaches[..issued]
    {
      issued, threw := 0, false;
      if over.Some? && over.value != active {
        coaches := Restamp(Reorder(coaches, active, over.value));
        issued, threw := Persist(coaches, replies);
      }
    }
  }
}
