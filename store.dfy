/** The application store: the active model, its geometry, the material,
    the constraints and the calculation steps, with an undo/redo history of
    earlier states. */
module Store {
  import opened Wrappers
  import opened Three
  import opened Types

  /** The data fields of the state. A history entry is a copy of these; the
      history stored inside an entry is never read back, because restoring
      an entry always replaces the history with the store's own stacks. */
  datatype Snapshot = Snapshot(
    activeModel: Option<ModelMetrics>,
    modelGeometry: Option<SceneValue>,
    material: Material,
    constraints: OptimizationConstraints,
    calculationSteps: seq<CalculationStep>)

  /** The whole state: the data, the `past` stack (latest entry last) and
      the `future` stack (next entry to redo first). */
  datatype AppState = AppState(data: Snapshot, past: seq<Snapshot>, future: seq<Snapshot>)

  /** The state the store is created with. */
  function Initial(): (s: AppState)
    ensures s.past == [] && s.future == []
    ensures s.data.activeModel == None && s.data.modelGeometry == None && s.data.calculationSteps == []
    ensures s.data.material == Material("Baja", 5.0, 7.85, Kg)
    ensures s.data.constraints == OptimizationConstraints(1000.0, 100.0, 500.0, [])
  {
    AppState(Snapshot(None, None, DefaultMaterial, DefaultConstraints, []), [], [])
  }

  /** What every setter does besides replacing its field: the pre-call data
      goes on top of `past` and `future` is cleared. */
  function Edit(s: AppState, data: Snapshot): (r: AppState)
    ensures r.data == data && r.past == s.past + [s.data] && r.future == []
    ensures |r.past| + |r.future| == |s.past| + 1
  {
    AppState(data, s.past + [s.data], [])
  }

  /** The five setters: each replaces its own field and nothing else. */
  function WithActiveModel(s: AppState, model: Option<ModelMetrics>): (r: AppState)
    ensures r.data.activeModel == model && r.data.(activeModel := s.data.activeModel) == s.data
    ensures r.past == s.past + [s.data] && r.future == []
  {
    Edit(s, s.data.(activeModel := model))
  }

  function WithModelGeometry(s: AppState, geometry: Option<SceneValue>): (r: AppState)
    ensures r.data.modelGeometry == geometry && r.data.(modelGeometry := s.data.modelGeometry) == s.data
    ensures r.past == s.past + [s.data] && r.future == []
  {
    Edit(s, s.data.(modelGeometry := geometry))
  }

  function WithMaterial(s: AppState, material: Material): (r: AppState)
    ensures r.data.material == material && r.data.(material := s.data.material) == s.data
    ensures r.past == s.past + [s.data] && r.future == []
  {
    Edit(s, s.data.(material := material))
  }

  function WithConstraints(s: AppState, constraints: OptimizationConstraints): (r: AppState)
    ensures r.data.constraints == constraints && r.data.(constraints := s.data.constraints) == s.data
    ensures r.past == s.past + [s.data] && r.future == []
  {
    Edit(s, s.data.(constraints := constraints))
  }

  function WithCalculationSteps(s: AppState, steps: seq<CalculationStep>): (r: AppState)
    ensures r.data.calculationSteps == steps && r.data.(calculationSteps := s.data.calculationSteps) == s.data
    ensures r.past == s.past + [s.data] && r.future == []
  {
    Edit(s, s.data.(calculationSteps := steps))
  }

  /** `undo`: with an empty `past` nothing happens; otherwise the latest
      `past` entry becomes the data, it leaves `past`, and the data it
      replaces goes in front of `future`. */
  function Undone(s: AppState): (r: AppState)
    ensures s.past == [] ==> r == s
    ensures s.past != [] ==>
      r.data == s.past[|s.past| - 1] && r.past == s.past[..|s.past| - 1] && r.future == [s.data] + s.future
  {
    if s.past == [] then s
    else AppState(s.past[|s.past| - 1], s.past[..|s.past| - 1], [s.data] + s.future)
  }

  /** `redo`: with an empty `future` nothing happens; otherwise the first
      `future` entry becomes the data, it leaves `future`, and the data it
      replaces goes on top of `past`. */
  function Redone(s: AppState): (r: AppState)
    ensures s.future == [] ==> r == s
    ensures s.future != [] ==>
      r.data == s.future[0] && r.past == s.past + [s.data] && r.future == s.future[1..]
  {
    if s.future == [] then s
    else AppState(s.future[0], s.past + [s.data], s.future[1..])
  }

  /** Undo and redo move one entry between the stacks and lose none. */
  lemma HistorySize(s: AppState)
    ensures |Undone(s).past| + |Undone(s).future| == |s.past| + |s.future|
    ensures |Redone(s).past| + |Redone(s).future| == |s.past| + |s.future|
  {
  }

  /** Redo after a successful undo gives back the state before the undo. */
  lemma RedoAfterUndo(s: AppState)
    requires s.past != []
    ensures Redone(Undone(s)) == s
  {
    var n := |s.past| - 1;
    assert s.past[..n] + [s.past[n]] == s.past;
  }

  /** Undo after a successful redo gives back the state before the redo. */
  lemma UndoAfterRedo(s: AppState)
    requires s.future != []
    ensures Undone(Redone(s)) == s
  {
    var p := s.past + [s.data];
    assert p[..|p| - 1] == s.past;
    assert [s.future[0]] + s.future[1..] == s.future;
  }

  /** Undo right after a setter restores the data the setter replaced and
      the `past` it started from, with only the setter's data left to redo. */
  lemma UndoAfterEdit(s: AppState, data: Snapshot)
    ensures Undone(Edit(s, data)) == AppState(s.data, s.past, [data])
  {
    var p := s.past + [s.data];
    assert p[..|p| - 1] == s.past;
  }

  /** The store, updated in place by its setters, `undo` and `redo`. */
  class AppStore {
    var activeModel: Option<ModelMetrics>
    var modelGeometry: Option<SceneValue>
    var material: Material
    var constraints: OptimizationConstraints
    var calculationSteps: seq<CalculationStep>
    var past: seq<Snapshot>
    var future: seq<Snapshot>

    /** `{ ...state }` without the history. */
    function Data(): Snapshot
      reads this
    {
      Snapshot(activeModel, modelGeometry, material, constraints, calculationSteps)
    }

    function State(): AppState
      reads this
    {
      AppState(Data(), past, future)
    }

    constructor ()
      ensures State() == Initial()
    {
      activeModel := None;
      modelGeometry := None;
      material := DefaultMaterial;
      constraints := DefaultConstraints;
      calculationSteps := [];
      past := [];
      future := [];
    }

    method SetActiveModel(model: Option<ModelMetrics>)
      modifies this
      ensures State() == WithActiveModel(old(State()), model)
    {
      past := past + [Data()];
      future := [];
      activeModel := model;
    }

    method SetModelGeometry(geometry: Option<SceneValue>)
      modifies this
      ensures State() == WithModelGeometry(old(State()), geometry)
    {
      past := past + [Data()];
      future := [];
      modelGeometry := geometry;
    }

    method SetMaterial(material: Material)
      modifies this
      ensures State() == WithMaterial(old(State()), material)
    {
      past := past + [Data()];
      future := [];
      this.material := material;
    }

    method SetConstraints(constraints: OptimizationConstraints)
      modifies this
      ensures State() == WithConstraints(old(State()), constraints)
    {
      past := past + [Data()];
      future := [];
      this.constraints := constraints;
    }

    method SetCalculationSteps(steps: seq<CalculationStep>)
      modifies this
      ensures State() == WithCalculationSteps(old(State()), steps)
    {
      past := past + [Data()];
      future := [];
      calculationSteps := steps;
    }

    /** Replaces every data field with those of an entry. */
    method Restore(entry: Snapshot)
      modifies this
      ensures Data() == entry && past == old(past) && future == old(future)
    {
      activeModel := entry.activeModel;
      modelGeometry := entry.modelGeometry;
      material := entry.material;
      constraints := entry.constraints;
      calculationSteps := entry.calculationSteps;
    }

    method Undo()
      modifies this
      ensures State() == Undone(old(State()))
    {
      if |past| == 0 {
        return;
      }
      var previous := past[|past| - 1];
      var current := Data();
      past := past[..|past| - 1];
      future := [current] + future;
      Restore(previous);
    }

    method Redo()
      modifies this
      ensures State() == Redone(old(State()))
    {
      if |future| == 0 {
        return;
      }
      var next := future[0];
      var current := Data();
      future := future[1..];
      past := past + [current];
      Restore(next);
    }
  }
}
