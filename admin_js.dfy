/**
 * The older exercise builder of `src/Admin.jsx`: the same reordering and
 * group fallback as `src/Admin.tsx`, without sets, reps, units or images,
 * and a cascading group delete.
 */
module AdminJs {
  import opened Js
  import ExerciseOrder
  import AdminTs

  type Exercise = ExerciseOrder.Exercise
  type Group = AdminTs.Group
  type GroupForm = AdminTs.GroupForm

  /** The exercise form of this version: no sets, reps or unit. */
  datatype ExerciseForm = ExerciseForm(title: string, description: string, order: int, active: bool, groupId: Option<int>)

  function BlankForm(order: int, groupId: Option<int>): ExerciseForm {
    ExerciseForm("", "", order, true, groupId)
  }

  /** `update({ title, description, order, active, exercise_group_id }).eq("id", id)`: the other columns stay. */
  function UpdateExercise(table: seq<Exercise>, id: int, form: ExerciseForm, groupId: int): seq<Exercise> {
    seq(|table|, i requires 0 <= i < |table| =>
      if table[i].id == id
      then table[i].(title := form.title, description := form.description, order := form.order,
                     active := form.active, groupId := groupId)
      else table[i])
  }

  /** An inserted row: the form's columns over the table's defaults for the rest. */
  function InsertedRow(defaults: Exercise, newId: int, form: ExerciseForm, groupId: int): Exercise {
    defaults.(id := newId, title := form.title, description := form.description, order := form.order,
              active := form.active, groupId := groupId)
  }

  /** `delete().eq("exercise_group_id", g)` on the `exercises` table. */
  function WithoutGroupExercises(table: seq<Exercise>, g: int): seq<Exercise>
    decreases |table|
  {
    if |table| == 0 then []
    else (if table[0].groupId != g then [table[0]] else []) + WithoutGroupExercises(table[1..], g)
  }

  /** `delete().eq("id", g)` on the `exercise_groups` table. */
  function WithoutGroup(groups: seq<Group>, g: int): seq<Group>
    decreases |groups|
  {
    if |groups| == 0 then []
    else (if groups[0].id != g then [groups[0]] else []) + WithoutGroup(groups[1..], g)
  }

  /** The cascade removes exactly the exercises of the deleted group and keeps the others in order. */
  lemma {:induction false} WithoutGroupExercisesSpec(table: seq<Exercise>, g: int)
    ensures forall x :: x in WithoutGroupExercises(table, g) <==> x in table && x.groupId != g
    ensures |WithoutGroupExercises(table, g)| <= |table|
    ensures (forall i :: 0 <= i < |table| ==> table[i].groupId != g) ==> WithoutGroupExercises(table, g) == table
    decreases |table|
  {
    if |table| > 0 {
      WithoutGroupExercisesSpec(table[1..], g);
      assert table == [table[0]] + table[1..];
    }
  }

  /** Deleting a group removes exactly the rows with its id. */
  lemma {:induction false} WithoutGroupSpec(groups: seq<Group>, g: int)
    ensures forall x :: x in WithoutGroup(groups, g) <==> x in groups && x.id != g
    decreases |groups|
  {
    if |groups| > 0 {
      WithoutGroupSpec(groups[1..], g);
      assert groups == [groups[0]] + groups[1..];
    }
  }

  class ExerciseAdmin {
    var exercises: seq<Exercise>
    var groups: seq<Group>
    var exerciseTable: seq<Exercise>
    var groupTable: seq<Group>
    var form: ExerciseForm
    var groupForm: GroupForm
    var editingId: Option<int>
    var editingGroupId: Option<int>
    var selectedGroupId: Option<int>
    var showAddForm: bool
    var showGroupForm: bool
    /** The values the `exercises` table gives the columns an insert of this version leaves out. */
    const columnDefaults: Exercise

    constructor(columnDefaults: Exercise, groups: seq<Group>, exercises: seq<Exercise>, selectedGroupId: Option<int>,
                exerciseTable: seq<Exercise>, groupTable: seq<Group>)
      ensures this.columnDefaults == columnDefaults && this.groups == groups && this.exercises == exercises
      ensures this.selectedGroupId == selectedGroupId
      ensures this.exerciseTable == exerciseTable && this.groupTable == groupTable
      ensures form == ExerciseForm("", "", 0, true, None) && groupForm == AdminTs.GroupForm("", "", 0, true)
      ensures editingId == None && editingGroupId == None && !showAddForm && !showGroupForm
    {
      this.columnDefaults := columnDefaults;
      this.groups := groups;
      this.exercises := exercises;
      this.selectedGroupId := selectedGroupId;
      this.exerciseTable := exerciseTable;
      this.groupTable := groupTable;
      form := ExerciseForm("", "", 0, true, None);
      groupForm := AdminTs.GroupForm("", "", 0, true);
      editingId := None;
      editingGroupId := None;
      showAddForm := false;
      showGroupForm := false;
    }

    /** `handleMoveUp(id, currentOrder)` */
    method MoveUp(id: int, current: int)
      modifies this`exerciseTable
      ensures exerciseTable == ExerciseOrder.MoveUp(exercises, old(exerciseTable), id, current)
    {
      if current <= 1 {
        return;
      }
      var p := ExerciseOrder.FindOrder(exercises, current - 1);
      if p.None? {
        return;
      }
      var other := exercises[p.value].id;
      exerciseTable := ExerciseOrder.SetOrder(exerciseTable, id, current - 1);
      exerciseTable := ExerciseOrder.SetOrder(exerciseTable, other, current);
    }

    /** `handleMoveDown(id, currentOrder)` */
    method MoveDown(id: int, current: int)
      modifies this`exerciseTable
      ensures exerciseTable == ExerciseOrder.MoveDown(exercises, old(exerciseTable), id, current)
    {
      var m := ExerciseOrder.MaxOrder(exercises);
      if m.None? || current >= m.value {
        return;
      }
      var p := ExerciseOrder.FindOrder(exercises, current + 1);
      if p.None? {
        return;
      }
      var other := exercises[p.value].id;
      exerciseTable := ExerciseOrder.SetOrder(exerciseTable, id, current + 1);
      exerciseTable := ExerciseOrder.SetOrder(exerciseTable, other, current);
    }

    /**
     * `handleSave`: the group falls back to the selected one (mutating the
     * form), a missing group aborts before any write, a truthy `editingId`
     * updates and anything else inserts; on success the form is reset.
     */
    method Save(writeError: Option<string>, newId: int) returns (alert: Option<string>)
      modifies this`form, this`exerciseTable, this`editingId, this`showAddForm
      ensures var g := AdminTs.SaveGroupId(old(form).groupId, selectedGroupId);
        !TruthyNum(g) ==> alert == Some("Du må velge en exercise group") && unchanged(this)
      ensures var g := AdminTs.SaveGroupId(old(form).groupId, selectedGroupId);
        TruthyNum(g) && writeError.Some? ==>
          alert == Some("Feil ved lagring: " + writeError.value) && form == old(form).(groupId := g)
          && exerciseTable == old(exerciseTable) && editingId == old(editingId) && showAddForm == old(showAddForm)
      ensures var g := AdminTs.SaveGroupId(old(form).groupId, selectedGroupId);
        TruthyNum(g) && writeError.None? ==>
          alert.None?
          && exerciseTable == (if TruthyNum(old(editingId))
                               then UpdateExercise(old(exerciseTable), old(editingId).value, old(form), g.value)
                               else old(exerciseTable) + [InsertedRow(columnDefaults, newId, old(form), g.value)])
          && form == BlankForm(|exercises| + 1, selectedGroupId) && editingId == None && !showAddForm
    {
      if !TruthyNum(form.groupId) && TruthyNum(selectedGroupId) {
        form := form.(groupId := selectedGroupId);
      }
      if !TruthyNum(form.groupId) {
        return Some("Du må velge en exercise group");
      }
      if writeError.Some? {
        return Some("Feil ved lagring: " + writeError.value);
      }
      var groupId := form.groupId.value;
      if TruthyNum(editingId) {
        exerciseTable := UpdateExercise(exerciseTable, editingId.value, form, groupId);
      } else {
        exerciseTable := exerciseTable + [InsertedRow(columnDefaults, newId, form, groupId)];
      }
      form := BlankForm(|exercises| + 1, selectedGroupId);
      editingId := None;
      showAddForm := false;
      return None;
    }

    /** `handleCancel` */
    method Cancel()
      modifies this`form, this`editingId, this`showAddForm
      ensures form == BlankForm(|exercises| + 1, selectedGroupId) && editingId == None && !showAddForm
    {
      form := BlankForm(|exercises| + 1, selectedGroupId);
      editingId := None;
      showAddForm := false;
    }

    /** `handleSaveGroup`: update for a truthy `editingGroupId`, otherwise insert; the selection is left alone. */
    method SaveGroup(writeError: Option<string>, newId: int) returns (alert: Option<string>)
      modifies this`groupTable, this`groupForm, this`editingGroupId, this`showGroupForm
      ensures writeError.Some? ==> alert == Some("Feil ved lagring av gruppe: " + writeError.value) && unchanged(this)
      ensures writeError.None? ==>
        alert.None?
        && groupTable == (if TruthyNum(old(editingGroupId)) then AdminTs.UpdateGroup(old(groupTable), old(editingGroupId).value, old(groupForm))
                          else old(groupTable) + [AdminTs.Group(newId, old(groupForm).name, old(groupForm).description, old(groupForm).order, old(groupForm).active)])
        && groupForm == AdminTs.GroupForm("", "", |groups| + 1, true)
        && editingGroupId == None && !showGroupForm
    {
      if writeError.Some? {
        return Some("Feil ved lagring av gruppe: " + writeError.value);
      }
      var f := groupForm;
      if TruthyNum(editingGroupId) {
        groupTable := AdminTs.UpdateGroup(groupTable, editingGroupId.value, f);
      } else {
        groupTable := groupTable + [AdminTs.Group(newId, f.name, f.description, f.order, f.active)];
      }
      groupForm := AdminTs.GroupForm("", "", |groups| + 1, true);
      editingGroupId := None;
      showGroupForm := false;
      return None;
    }

    /**
     * `handleDeleteGroup(id)`: after the confirmation, the group's exercises
     * are deleted first (that call's outcome is never looked at), then the
     * group; the selection is cleared only when it was the deleted group.
     * When the group delete fails the exercises are already gone.
     */
    method DeleteGroup(id: int, confirmed: bool, exercisesDeleted: bool, groupError: Option<string>) returns (alert: Option<string>)
      modifies this`exerciseTable, this`groupTable, this`selectedGroupId
      ensures !confirmed ==> alert.None? && unchanged(this)
      ensures confirmed ==>
        exerciseTable == (if exercisesDeleted then WithoutGroupExercises(old(exerciseTable), id) else old(exerciseTable))
      ensures confirmed && groupError.Some? ==>
        alert == Some("Feil ved sletting: " + groupError.value)
        && groupTable == old(groupTable) && selectedGroupId == old(selectedGroupId)
      ensures confirmed && groupError.None? ==>
        alert.None? && groupTable == WithoutGroup(old(groupTable), id)
        && selectedGroupId == (if old(selectedGroupId) == Some(id) then None else old(selectedGroupId))
    {
      if !confirmed {
        return None;
      }
      if exercisesDeleted {
        exerciseTable := WithoutGroupExercises(exerciseTable, id);
      }
      if groupError.Some? {
        return Some("Feil ved sletting: " + groupError.value);
      }
      groupTable := WithoutGroup(groupTable, id);
      if selectedGroupId == Some(id) {
        selectedGroupId := None;
      }
      return None;
    }
  }
}
