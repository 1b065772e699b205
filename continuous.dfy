/** The continuous-time formulation of the `/schedule` handler in
    backend/app.py: one start-time variable per task instance, big-M
    exclusivity between instances of the same activity type, a
    minimum/maximum separation chain between consecutive instances, one
    gap variable per patient, bounded above by minus the distance of every
    pair of that patient's instances, and the objective built from them; then the read-back of the solved start times. */
module Continuous {
  import opened LinearModel
  import opened Scheduling

  /** The keys of the formulation's variables. */
  datatype CVar =
    /** The start time of instance `index` of task `taskId`. */
    | Start(taskId: int, index: int)
    /** the order indicator z for the ordered pair of instances */
    | Order(taskId: int, index: int, otherId: int, otherIndex: int)
    /** The gap variable of patient `patientId`: at most minus the distance of each pair of the patient's instances. */
    | Gap(patientId: int)
    /** The free variable the model minimises. */
    | Objective

  datatype Patient = Patient(id: int)

  /** The model built, or the patient id of the KeyError the handler stops with. */
  datatype Outcome = Built(model: Model<CVar>) | MissingPatient(patientId: int)

  /** One entry of the returned list. */
  datatype Event = Event(taskId: int, taskInstanceId: int, startTime: real)

  /** MAX_TIME as the big-M constant and as the bound of the time variables. */
  const MaxTime: real := MAX_TIME as real

  function StartOf(i: Instance): CVar {
    Start(i.task.id, i.index)
  }

  function OrderOf(x: Instance, y: Instance): CVar {
    Order(x.task.id, x.index, y.task.id, y.index)
  }

  /** The domain each kind of variable is created with. */
  function DomainOf(v: CVar): Domain {
    match v
    case Start(_, _) => Interval(0.0, MaxTime)
    case Order(_, _, _, _) => Boolean
    case Gap(_) => Interval(-MaxTime, MaxTime)
    case Objective => Free
  }

  predicate WellTyped(m: Model<CVar>) {
    forall v :: v in m.domains ==> m.domains[v] == DomainOf(v)
  }

  function AbsReal(x: real): real {
    if x < 0.0 then -x else x
  }

  /** Two instances differ in their task id or their index. */
  predicate Distinct(x: Instance, y: Instance) {
    x.task.id != y.task.id || x.index != y.index
  }

  /** The instance pairs that get an exclusivity disjunction. */
  predicate Competing(x: Instance, y: Instance) {
    Distinct(x, y) && x.task.activityType == y.task.activityType
  }

  /** The instance pairs that bound their patient's gap variable. */
  predicate SamePatient(x: Instance, y: Instance) {
    Distinct(x, y) && x.task.patientId == y.task.patientId
  }

  /** duration/2 + duration2/2, in exact (not floating point) arithmetic. */
  function HalfDurations(x: Instance, y: Instance): real {
    x.task.duration as real / 2.0 + y.task.duration as real / 2.0
  }

  // ---------------------------------------------------------------------
  // The emitted constraints (each `lhs >= rhs` is kept as lhs - rhs
  // with the variables on the left and the constant on the right).
  // ---------------------------------------------------------------------

  /** s_x - s_y >= D - MAX_TIME*z */
  function ExclusionAfter(x: Instance, y: Instance): Constraint<CVar> {
    Linear([Term(1.0, StartOf(x)), Term(-1.0, StartOf(y)), Term(MaxTime, OrderOf(x, y))],
           AtLeast, HalfDurations(x, y))
  }

  /** s_y - s_x >= D - MAX_TIME*(1 - z) */
  function ExclusionBefore(x: Instance, y: Instance): Constraint<CVar> {
    Linear([Term(1.0, StartOf(y)), Term(-1.0, StartOf(x)), Term(-MaxTime, OrderOf(x, y))],
           AtLeast, HalfDurations(x, y) - MaxTime)
  }

  /** s_i >= s_{i-1} + minimum_separation */
  function ChainLower(i: Instance): Constraint<CVar> {
    Linear([Term(1.0, StartOf(i)), Term(-1.0, Start(i.task.id, i.index - 1))],
           AtLeast, i.task.minimumSeparation as real)
  }

  /** s_i <= s_{i-1} + maximum_separation */
  function ChainUpper(i: Instance): Constraint<CVar> {
    Linear([Term(1.0, StartOf(i)), Term(-1.0, Start(i.task.id, i.index - 1))],
           AtMost, i.task.maximumSeparation as real)
  }

  /** gap[p] <= s_x - s_y */
  function GapForward(x: Instance, y: Instance): Constraint<CVar> {
    Linear([Term(1.0, Gap(x.task.patientId)), Term(-1.0, StartOf(x)), Term(1.0, StartOf(y))],
           AtMost, 0.0)
  }

  /** gap[p] <= s_y - s_x */
  function GapBackward(x: Instance, y: Instance): Constraint<CVar> {
    Linear([Term(1.0, Gap(x.task.patientId)), Term(1.0, StartOf(x)), Term(-1.0, StartOf(y))],
           AtMost, 0.0)
  }

  /** One unit term per gap variable, in the order of the given patient ids. */
  function GapTerms(ids: seq<int>): seq<Term<CVar>> {
    if ids == [] then [] else [Term(1.0, Gap(ids[0]))] + GapTerms(ids[1..])
  }

  /** The objective variable equals minus the sum of the gap variables,
      kept as objective + (sum of the gaps) == 0. */
  function ObjectiveDefinition(ids: seq<int>): Constraint<CVar> {
    Linear([Term(1.0, Objective)] + GapTerms(ids), Equal, 0.0)
  }

  // ---------------------------------------------------------------------
  // The passes of the handler, as folds in loop order.
  // ---------------------------------------------------------------------

  /** The start variable of each instance, declared in loop order. */
  function DeclareStarts(m: Model<CVar>, insts: seq<Instance>): Model<CVar> {
    if insts == [] then m
    else Declare(DeclareStarts(m, insts[..|insts| - 1]), StartOf(insts[|insts| - 1]), Interval(0.0, MaxTime))
  }

  /** One ordered pair of instances: a competing pair gets its order
      indicator and both big-M inequalities; any other pair adds nothing. */
  function ExclusionStep(m: Model<CVar>, x: Instance, y: Instance): Model<CVar> {
    if Competing(x, y) then
      Add(Add(Declare(m, OrderOf(x, y), Boolean), ExclusionAfter(x, y)), ExclusionBefore(x, y))
    else m
  }

  function ExclusionRow(m: Model<CVar>, x: Instance, ys: seq<Instance>): Model<CVar> {
    if ys == [] then m else ExclusionStep(ExclusionRow(m, x, ys[..|ys| - 1]), x, ys[|ys| - 1])
  }

  /** ExclusionStep for every ordered pair of xs x ys, row by row. */
  function ExclusionPass(m: Model<CVar>, xs: seq<Instance>, ys: seq<Instance>): Model<CVar> {
    if xs == [] then m else ExclusionRow(ExclusionPass(m, xs[..|xs| - 1], ys), xs[|xs| - 1], ys)
  }

  /** Every instance after the first of its task is bounded by the
      previous one from below and from above. */
  function ChainStep(m: Model<CVar>, i: Instance): Model<CVar> {
    if i.index >= 1 then Add(Add(m, ChainLower(i)), ChainUpper(i)) else m
  }

  /** ChainStep for every instance in loop order. */
  function ChainPass(m: Model<CVar>, insts: seq<Instance>): Model<CVar> {
    if insts == [] then m else ChainStep(ChainPass(m, insts[..|insts| - 1]), insts[|insts| - 1])
  }

  /** The gap variable of each listed patient; a repeated id declares the same key again. */
  function DeclareGaps(m: Model<CVar>, patients: seq<Patient>): Model<CVar> {
    if patients == [] then m
    else Declare(DeclareGaps(m, patients[..|patients| - 1]), Gap(patients[|patients| - 1].id),
                 Interval(-MaxTime, MaxTime))
  }

  /** The distinct patient ids in order of first appearance, as the gap dictionary keeps its keys. */
  function GapKeys(patients: seq<Patient>): seq<int> {
    if patients == [] then []
    else
      var ks := GapKeys(patients[..|patients| - 1]);
      if patients[|patients| - 1].id in ks then ks else ks + [patients[|patients| - 1].id]
  }

  /** One ordered pair of instances of one patient: both signed
      differences bound the patient's gap (once its variable is known to exist). */
  function GapStep(m: Model<CVar>, x: Instance, y: Instance): Model<CVar> {
    if SamePatient(x, y) then Add(Add(m, GapForward(x, y)), GapBackward(x, y)) else m
  }

  function GapRow(m: Model<CVar>, x: Instance, ys: seq<Instance>): Model<CVar> {
    if ys == [] then m else GapStep(GapRow(m, x, ys[..|ys| - 1]), x, ys[|ys| - 1])
  }

  /** GapStep for every ordered pair of xs x ys, row by row. */
  function GapPass(m: Model<CVar>, xs: seq<Instance>, ys: seq<Instance>): Model<CVar> {
    if xs == [] then m else GapRow(GapPass(m, xs[..|xs| - 1], ys), xs[|xs| - 1], ys)
  }

  /** Row x looks up a patient id that has no gap variable. */
  predicate RowMissing(x: Instance, ys: seq<Instance>, keys: seq<int>) {
    x.task.patientId !in keys && exists j :: 0 <= j < |ys| && SamePatient(x, ys[j])
  }

  /** The patient id of the first row, in loop order, whose gap lookup fails, if any. */
  function FirstMissing(xs: seq<Instance>, ys: seq<Instance>, keys: seq<int>): Option<int> {
    if xs == [] then None
    else if RowMissing(xs[0], ys, keys) then Some(xs[0].task.patientId)
    else FirstMissing(xs[1..], ys, keys)
  }

  /** Declares the free objective variable, defines it from the gaps and minimises it. */
  function SetObjective(m: Model<CVar>, keys: seq<int>): Model<CVar> {
    Add(Declare(m, Objective, Free), ObjectiveDefinition(keys)).(sense := Minimize, objective := [Term(1.0, Objective)])
  }

  /** The passes in the handler's order, or the first missing patient id. */
  function Formulation(tasks: seq<Task>, patients: seq<Patient>): Outcome {
    var insts := Instances(tasks);
    var keys := GapKeys(patients);
    match FirstMissing(insts, insts, keys)
    case Some(p) => MissingPatient(p)
    case None =>
      var m := DeclareGaps(ChainPass(ExclusionPass(DeclareStarts(Empty(), insts), insts, insts), insts), patients);
      Built(SetObjective(GapPass(m, insts, insts), keys))
  }

  function EventOf(i: Instance, a: CVar -> real): Event {
    Event(i.task.id, i.index, a(StartOf(i)))
  }

  /** One event per instance, in loop order, carrying its start time under a. */
  function Events(insts: seq<Instance>, a: CVar -> real): seq<Event> {
    if insts == [] then [] else Events(insts[..|insts| - 1], a) + [EventOf(insts[|insts| - 1], a)]
  }

  // ---------------------------------------------------------------------
  // The handler.
  // ---------------------------------------------------------------------

  /** One start-time variable per task instance (backend/app.py:58-61). */
  method AddStartVariables(model0: Model<CVar>, insts: seq<Instance>) returns (model: Model<CVar>)
    ensures model == DeclareStarts(model0, insts)
  {
    model := model0;
    var i := 0;
    while i < |insts|
      invariant 0 <= i <= |insts|
      invariant model == DeclareStarts(model0, insts[..i])
    {
      assert insts[..i + 1][..i] == insts[..i];
      model := Declare(model, StartOf(insts[i]), Interval(0.0, MaxTime));
      i := i + 1;
    }
    assert insts[..|insts|] == insts;
  }

  /** Lines 66-74: the big-M disjunction for every ordered pair of
      distinct instances of one activity type. */
  method AddExclusivity(model0: Model<CVar>, insts: seq<Instance>) returns (model: Model<CVar>)
    ensures model == ExclusionPass(model0, insts, insts)
  {
    model := model0;
    var i := 0;
    while i < |insts|
      invariant 0 <= i <= |insts|
      invariant model == ExclusionPass(model0, insts[..i], insts)
    {
      var j := 0;
      while j < |insts|
        invariant 0 <= j <= |insts|
        invariant model == ExclusionRow(ExclusionPass(model0, insts[..i], insts), insts[i], insts[..j])
      {
        assert insts[..j + 1][..j] == insts[..j];
        var x, y := insts[i], insts[j];
        if Competing(x, y) {
          model := Declare(model, OrderOf(x, y), Boolean);
          model := Add(model, ExclusionAfter(x, y));
          model := Add(model, ExclusionBefore(x, y));
        }
        j := j + 1;
      }
      assert insts[..j] == insts;
      assert insts[..i + 1][..i] == insts[..i];
      i := i + 1;
    }
    assert insts[..|insts|] == insts;
  }

  /** Lines 78-81: the separation chain between consecutive instances. */
  method AddSeparationChain(model0: Model<CVar>, insts: seq<Instance>) returns (model: Model<CVar>)
    ensures model == ChainPass(model0, insts)
  {
    model := model0;
    var i := 0;
    while i < |insts|
      invariant 0 <= i <= |insts|
      invariant model == ChainPass(model0, insts[..i])
    {
      assert insts[..i + 1][..i] == insts[..i];
      if insts[i].index >= 1 {
        model := Add(model, ChainLower(insts[i]));
        model := Add(model, ChainUpper(insts[i]));
      }
      i := i + 1;
    }
    assert insts[..|insts|] == insts;
  }

  /** Lines 85-88: one gap variable per patient; also returns the
      dictionary's keys in insertion order. */
  method AddGapVariables(model0: Model<CVar>, patients: seq<Patient>) returns (model: Model<CVar>, keys: seq<int>)
    ensures model == DeclareGaps(model0, patients)
    ensures keys == GapKeys(patients)
  {
    model, keys := model0, [];
    var p := 0;
    while p < |patients|
      invariant 0 <= p <= |patients|
      invariant model == DeclareGaps(model0, patients[..p])
      invariant keys == GapKeys(patients[..p])
    {
      assert patients[..p + 1][..p] == patients[..p];
      model := Declare(model, Gap(patients[p].id), Interval(-MaxTime, MaxTime));
      if patients[p].id !in keys {
        keys := keys + [patients[p].id];
      }
      p := p + 1;
    }
    assert patients[..|patients|] == patients;
  }

  /** Lines 90-96: both signed differences bound the patient's gap
      variable; the dictionary lookup fails when the patient has none. */
  method AddGapBounds(model0: Model<CVar>, insts: seq<Instance>, keys: seq<int>) returns (r: Outcome)
    ensures FirstMissing(insts, insts, keys).Some? ==> r == MissingPatient(FirstMissing(insts, insts, keys).value)
    ensures FirstMissing(insts, insts, keys).None? ==> r == Built(GapPass(model0, insts, insts))
  {
    var model := model0;
    var i := 0;
    while i < |insts|
      invariant 0 <= i <= |insts|
      invariant model == GapPass(model0, insts[..i], insts)
      invariant FirstMissing(insts, insts, keys) == FirstMissing(insts[i..], insts, keys)
    {
      var j := 0;
      while j < |insts|
        invariant 0 <= j <= |insts|
        invariant model == GapRow(GapPass(model0, insts[..i], insts), insts[i], insts[..j])
        invariant insts[i].task.patientId !in keys ==> forall j' :: 0 <= j' < j ==> !SamePatient(insts[i], insts[j'])
      {
        assert insts[..j + 1][..j] == insts[..j];
        var x, y := insts[i], insts[j];
        if SamePatient(x, y) {
          if x.task.patientId !in keys {
            assert RowMissing(insts[i], insts, keys);
            return MissingPatient(x.task.patientId);
          }
          model := Add(model, GapForward(x, y));
          model := Add(model, GapBackward(x, y));
        }
        j := j + 1;
      }
      assert insts[..j] == insts;
      assert !RowMissing(insts[i], insts, keys);
      assert insts[i..][1..] == insts[i + 1..];
      assert insts[..i + 1][..i] == insts[..i];
      i := i + 1;
    }
    assert insts[..|insts|] == insts;
    r := Built(model);
  }

  /** Lines 53-102: the whole model, or the KeyError of line 95. */
  method Formulate(tasks: seq<Task>, patients: seq<Patient>) returns (r: Outcome)
    ensures r == Formulation(tasks, patients)
  {
    var insts := Instances(tasks);
    var model := AddStartVariables(Empty(), insts);
    model := AddExclusivity(model, insts);
    model := AddSeparationChain(model, insts);
    var keys;
    model, keys := AddGapVariables(model, patients);
    r := AddGapBounds(model, insts, keys);
    if r.Built? {
      // the objective variable, its definition and the sense
      model := r.model;
      model := Declare(model, Objective, Free);
      model := Add(model, ObjectiveDefinition(keys));
      model := model.(sense := Minimize, objective := [Term(1.0, Objective)]);
      r := Built(model);
    }
  }

  /** Reads the solved start times back (lines 113-120). */
  method ExtractEvents(tasks: seq<Task>, a: CVar -> real) returns (events: seq<Event>)
    ensures events == Events(Instances(tasks), a)
  {
    events := [];
    var t := 0;
    while t < |tasks|
      invariant 0 <= t <= |tasks|
      invariant events == Events(Instances(tasks[..t]), a)
    {
      var task := tasks[t];
      var k := 0;
      assert Instances(tasks[..t]) + Repeats(task, 0) == Instances(tasks[..t]);
      while k < Times(task)
        invariant 0 <= k <= Times(task)
        invariant events == Events(Instances(tasks[..t]) + Repeats(task, k), a)
      {
        ghost var done := Instances(tasks[..t]) + Repeats(task, k);
        assert Instances(tasks[..t]) + Repeats(task, k + 1) == done + [Instance(task, k)];
        assert (done + [Instance(task, k)])[..|done|] == done;
        events := events + [Event(task.id, k, a(Start(task.id, k)))];
        k := k + 1;
      }
      assert tasks[..t + 1][..t] == tasks[..t];
      assert Instances(tasks[..t + 1]) == Instances(tasks[..t]) + Repeats(task, Times(task));
      t := t + 1;
    }
    assert tasks[..|tasks|] == tasks;
  }
}
