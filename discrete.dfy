/** The discrete-time formulation of the `/schedule` handler in
    backend/oldAppBoolean.py: one 0/1 variable per (task instance, nurse,
    20-minute slot), exactly-once coverage per instance, one instance per
    nurse and slot, a "both performed" goal variable for every pair of
    cells whose (task, instance, time) differ, the minimum-separation
    exclusions, and the maximised objective; then the read-back of the
    booked cells. */
module Discrete {
  import opened LinearModel
  import opened Scheduling

  /** Time is in 20-minute intervals. */
  const TIME_INTERVAL: int := 20

  datatype Nurse = Nurse(id: int)

  /** The key (task id, task instance, nurse id, time) of variables. */
  datatype Booking = Booking(taskId: int, index: int, nurseId: int, time: int)

  /** The keys of the formulation's variables. */
  datatype DVar =
    /** The 0/1 variable of one cell: the instance is done by the nurse at that time. */
    | Assign(booking: Booking)
    /** The 0/1 variable that, when 1, forces both cells to 1. */
    | Goal(first: Booking, second: Booking)

  /** One point of the task-instance x nurse x slot grid. */
  datatype Cell = Cell(inst: Instance, nurse: Nurse, time: int)

  /** The solver's answer as the handler sees it. */
  datatype Status = Optimal | Feasible | Infeasible | ModelInvalid | Unknown

  /** What the handler reports: the booked cells, or that there is no solution. */
  datatype Report = Found(bookings: seq<Booking>) | NoSolution

  function Key(c: Cell): Booking {
    Booking(c.inst.task.id, c.inst.index, c.nurse.id, c.time)
  }

  function X(c: Cell): DVar {
    Assign(Key(c))
  }

  function G(c: Cell, d: Cell): DVar {
    Goal(Key(c), Key(d))
  }

  /** The arithmetic progression lo, lo + step, ... of the values below hi,
      for a positive step. */
  function Range(lo: int, hi: int, step: int): seq<int>
    requires step > 0
  {
    var n := if lo >= hi then 0 else (hi - lo + step - 1) / step;
    seq(n, k requires 0 <= k < n => lo + k * step)
  }

  /** The slot start times of the day: the multiples of TIME_INTERVAL below MAX_TIME. */
  function Slots(): seq<int> {
    Range(0, MAX_TIME, TIME_INTERVAL)
  }

  /** The slots from 7:00 up to but excluding 21:00, which earn the daytime bonus. */
  function DaySlots(): seq<int> {
    Range(7 * 60, 21 * 60, TIME_INTERVAL)
  }

  /** The cells of one instance and one nurse, in slot order. */
  function SlotCells(i: Instance, n: Nurse, slots: seq<int>): seq<Cell> {
    seq(|slots|, k requires 0 <= k < |slots| => Cell(i, n, slots[k]))
  }

  /** The cells of one instance, nurse by nurse and slot by slot. */
  function InstCells(i: Instance, nurses: seq<Nurse>, slots: seq<int>): seq<Cell> {
    if nurses == [] then []
    else InstCells(i, nurses[..|nurses| - 1], slots) + SlotCells(i, nurses[|nurses| - 1], slots)
  }

  /** The whole grid: instance by instance, then nurse by nurse, then slot by slot. */
  function Cells(insts: seq<Instance>, nurses: seq<Nurse>, slots: seq<int>): seq<Cell> {
    if insts == [] then []
    else Cells(insts[..|insts| - 1], nurses, slots) + InstCells(insts[|insts| - 1], nurses, slots)
  }

  /** The cells of one nurse and one slot, instance by instance. */
  function Column(insts: seq<Instance>, n: Nurse, t: int): seq<Cell> {
    seq(|insts|, k requires 0 <= k < |insts| => Cell(insts[k], n, t))
  }

  /** The unit-weighted sum of the cell variables of cs. */
  function UnitTerms(cs: seq<Cell>): seq<Term<DVar>> {
    seq(|cs|, k requires 0 <= k < |cs| => Term(1.0, X(cs[k])))
  }

  // ---------------------------------------------------------------------
  // The emitted constraints.
  // ---------------------------------------------------------------------

  /** The cell variable is 0; emitted for a slot before the task's earliest start. */
  function Fix(c: Cell): Constraint<DVar> {
    Linear([Term(1.0, X(c))], Equal, 0.0)
  }

  /** The cell variables of one instance, over all nurses and slots, sum to 1. */
  function Coverage(i: Instance, nurses: seq<Nurse>): Constraint<DVar> {
    Linear(UnitTerms(InstCells(i, nurses, Slots())), Equal, 1.0)
  }

  /** The cell variables of one nurse and one slot, over all instances, sum to at most 1. */
  function Capacity(insts: seq<Instance>, n: Nurse, t: int): Constraint<DVar> {
    Linear(UnitTerms(Column(insts, n, t)), AtMost, 1.0)
  }

  /** The pairs of cells that get a goal variable: (task id, instance, time) differ. */
  predicate Paired(c: Cell, d: Cell) {
    c.inst.task.id != d.inst.task.id || c.inst.index != d.inst.index || c.time != d.time
  }

  /** Two instances of the same task less than its minimum separation apart. */
  predicate TooClose(c: Cell, d: Cell) {
    && c.inst.task.id == d.inst.task.id && c.inst.index != d.inst.index
    && Abs(c.time - d.time) < c.inst.task.minimumSeparation
  }

  /** When the goal variable of (c, d) is 1, both cell variables are 1. */
  function BothOrNothing(c: Cell, d: Cell): Constraint<DVar> {
    Implies(G(c, d), [X(c), X(d)])
  }

  /** At most one of the two cells is 1. */
  function Separation(c: Cell, d: Cell): Constraint<DVar> {
    Linear([Term(1.0, X(c)), Term(1.0, X(d))], AtMost, 1.0)
  }

  /** The weight left in goal_variable_coefficients for a pair of slots:
      0, overwritten by 80 within one interval, overwritten by 40 within
      two intervals. */
  function GoalCoefficient(t1: int, t2: int): real {
    var w0 := 0.0;
    var w1 := if Abs(t1 - t2) <= TIME_INTERVAL then 80.0 else w0;
    if Abs(t1 - t2) <= 2 * TIME_INTERVAL then 40.0 else w1
  }

  /** The model together with the goal_variable_coefficients dictionary. */
  datatype Build = Build(model: Model<DVar>, coefficients: map<(Booking, Booking), real>)

  // ---------------------------------------------------------------------
  // The passes of the handler, as folds in loop order.
  // ---------------------------------------------------------------------

  /** One cell: its 0/1 variable, fixed to 0 before the task's earliest start. */
  function GridStep(m: Model<DVar>, c: Cell): Model<DVar> {
    var m' := Declare(m, X(c), Boolean);
    if c.time < c.inst.task.earliestStartTime then Add(m', Fix(c)) else m'
  }

  /** GridStep for every cell in loop order. */
  function GridPass(m: Model<DVar>, cs: seq<Cell>): Model<DVar> {
    if cs == [] then m else GridStep(GridPass(m, cs[..|cs| - 1]), cs[|cs| - 1])
  }

  /** One coverage equation per instance, in loop order. */
  function CoveragePass(m: Model<DVar>, insts: seq<Instance>, nurses: seq<Nurse>): Model<DVar> {
    if insts == [] then m
    else Add(CoveragePass(m, insts[..|insts| - 1], nurses), Coverage(insts[|insts| - 1], nurses))
  }

  function CapacityRow(m: Model<DVar>, insts: seq<Instance>, n: Nurse, slots: seq<int>): Model<DVar> {
    if slots == [] then m
    else Add(CapacityRow(m, insts, n, slots[..|slots| - 1]), Capacity(insts, n, slots[|slots| - 1]))
  }

  /** One capacity inequality per nurse and slot, nurse by nurse. */
  function CapacityPass(m: Model<DVar>, insts: seq<Instance>, nurses: seq<Nurse>, slots: seq<int>): Model<DVar> {
    if nurses == [] then m
    else CapacityRow(CapacityPass(m, insts, nurses[..|nurses| - 1], slots), insts, nurses[|nurses| - 1], slots)
  }

  /** One ordered pair of cells: a paired one gets its goal variable, the
      implication, its weight and, when too close, the exclusion. */
  function GoalStep(b: Build, c: Cell, d: Cell): Build {
    if !Paired(c, d) then b
    else
      var m := Add(Declare(b.model, G(c, d), Boolean), BothOrNothing(c, d));
      Build(if TooClose(c, d) then Add(m, Separation(c, d)) else m,
            b.coefficients[(Key(c), Key(d)) := GoalCoefficient(c.time, d.time)])
  }

  function GoalRow(b: Build, c: Cell, ds: seq<Cell>): Build {
    if ds == [] then b else GoalStep(GoalRow(b, c, ds[..|ds| - 1]), c, ds[|ds| - 1])
  }

  /** GoalStep for every ordered pair of cs x ds, row by row. */
  function GoalPass(b: Build, cs: seq<Cell>, ds: seq<Cell>): Build {
    if cs == [] then b else GoalRow(GoalPass(b, cs[..|cs| - 1], ds), cs[|cs| - 1], ds)
  }

  function GoalRowTerms(c: Cell, ds: seq<Cell>): seq<Term<DVar>> {
    if ds == [] then []
    else
      var d := ds[|ds| - 1];
      GoalRowTerms(c, ds[..|ds| - 1]) + (if Paired(c, d) then [Term(GoalCoefficient(c.time, d.time), G(c, d))] else [])
  }

  /** The weighted goal variables of the paired cells, row by row. */
  function GoalTerms(cs: seq<Cell>, ds: seq<Cell>): seq<Term<DVar>> {
    if cs == [] then [] else GoalTerms(cs[..|cs| - 1], ds) + GoalRowTerms(cs[|cs| - 1], ds)
  }

  /** Weight 10 on every cell variable of cs (the daytime cells). */
  function DayTerms(cs: seq<Cell>): seq<Term<DVar>> {
    seq(|cs|, k requires 0 <= k < |cs| => Term(10.0, X(cs[k])))
  }

  /** The passes in the handler's order, then the maximised objective. */
  function Formulation(tasks: seq<Task>, nurses: seq<Nurse>): Build {
    var insts := Instances(tasks);
    var cells := Cells(insts, nurses, Slots());
    var m := CapacityPass(CoveragePass(GridPass(Empty(), cells), insts, nurses), insts, nurses, Slots());
    var b := GoalPass(Build(m, map[]), cells, cells);
    b.(model := b.model.(sense := Maximize,
                         objective := GoalTerms(cells, cells) + DayTerms(Cells(insts, nurses, DaySlots()))))
  }

  /** The cells (as keys) whose variable is 1 under solution values a, in loop order. */
  function Decode(a: DVar -> real, cs: seq<Cell>): seq<Booking> {
    if cs == [] then []
    else Decode(a, cs[..|cs| - 1]) + (if a(X(cs[|cs| - 1])) == 1.0 then [Key(cs[|cs| - 1])] else [])
  }

  /** The booked cells for a status with a solution, otherwise no solution. */
  function Outcome(status: Status, tasks: seq<Task>, nurses: seq<Nurse>, a: DVar -> real): Report {
    if status == Optimal || status == Feasible then Found(Decode(a, Cells(Instances(tasks), nurses, Slots())))
    else NoSolution
  }

  // ---------------------------------------------------------------------
  // The handler.
  // ---------------------------------------------------------------------

  /** Lines 60-67: a 0/1 variable per cell, fixed to 0 before the task's
      earliest start time. */
  method AddAssignments(model0: Model<DVar>, cells: seq<Cell>) returns (model: Model<DVar>)
    ensures model == GridPass(model0, cells)
  {
    model := model0;
    var i := 0;
    while i < |cells|
      invariant 0 <= i <= |cells|
      invariant model == GridPass(model0, cells[..i])
    {
      assert cells[..i + 1][..i] == cells[..i];
      var c := cells[i];
      model := Declare(model, X(c), Boolean);
      if c.time < c.inst.task.earliestStartTime {
        model := Add(model, Fix(c));
      }
      i := i + 1;
    }
    assert cells[..|cells|] == cells;
  }

  /** Lines 70-72: every instance is done exactly once. */
  method AddCoverage(model0: Model<DVar>, insts: seq<Instance>, nurses: seq<Nurse>) returns (model: Model<DVar>)
    ensures model == CoveragePass(model0, insts, nurses)
  {
    model := model0;
    var i := 0;
    while i < |insts|
      invariant 0 <= i <= |insts|
      invariant model == CoveragePass(model0, insts[..i], nurses)
    {
      assert insts[..i + 1][..i] == insts[..i];
      model := Add(model, Coverage(insts[i], nurses));
      i := i + 1;
    }
    assert insts[..|insts|] == insts;
  }

  /** Lines 75-77: at most one instance per nurse and slot. */
  method AddCapacity(model0: Model<DVar>, insts: seq<Instance>, nurses: seq<Nurse>, slots: seq<int>)
    returns (model: Model<DVar>)
    ensures model == CapacityPass(model0, insts, nurses, slots)
  {
    model := model0;
    var n := 0;
    while n < |nurses|
      invariant 0 <= n <= |nurses|
      invariant model == CapacityPass(model0, insts, nurses[..n], slots)
    {
      var t := 0;
      while t < |slots|
        invariant 0 <= t <= |slots|
        invariant model == CapacityRow(CapacityPass(model0, insts, nurses[..n], slots), insts, nurses[n], slots[..t])
      {
        assert slots[..t + 1][..t] == slots[..t];
        model := Add(model, Capacity(insts, nurses[n], slots[t]));
        t := t + 1;
      }
      assert slots[..t] == slots;
      assert nurses[..n + 1][..n] == nurses[..n];
      n := n + 1;
    }
    assert nurses[..|nurses|] == nurses;
  }

  /** Lines 94-112 for one ordered pair of cells: the goal variable, its
      weight (written in three tiers, the last that applies wins) and the
      minimum-separation exclusion. */
  method AddGoal(model0: Model<DVar>, coefficients0: map<(Booking, Booking), real>, c: Cell, d: Cell)
    returns (model: Model<DVar>, coefficients: map<(Booking, Booking), real>)
    ensures Build(model, coefficients) == GoalStep(Build(model0, coefficients0), c, d)
  {
    model, coefficients := model0, coefficients0;
    if Paired(c, d) {
      var key := (Key(c), Key(d));
      model := Declare(model, G(c, d), Boolean);
      model := Add(model, BothOrNothing(c, d));
      coefficients := coefficients[key := 0.0];
      if Abs(c.time - d.time) <= TIME_INTERVAL {
        coefficients := coefficients[key := 80.0];
      }
      if Abs(c.time - d.time) <= 2 * TIME_INTERVAL {
        coefficients := coefficients[key := 40.0];
      }
      if c.inst.task.id == d.inst.task.id && c.inst.index != d.inst.index {
        if Abs(c.time - d.time) < c.inst.task.minimumSeparation {
          model := Add(model, Separation(c, d));
        }
      }
    }
  }

  /** Lines 86-112: the goal variables, their weights and the
      minimum-separation exclusions, for every ordered pair of cells. */
  method AddGoals(build0: Build, cells: seq<Cell>) returns (build: Build)
    ensures build == GoalPass(build0, cells, cells)
  {
    var model, coefficients := build0.model, build0.coefficients;
    var i := 0;
    while i < |cells|
      invariant 0 <= i <= |cells|
      invariant Build(model, coefficients) == GoalPass(build0, cells[..i], cells)
    {
      var j := 0;
      while j < |cells|
        invariant 0 <= j <= |cells|
        invariant Build(model, coefficients) == GoalRow(GoalPass(build0, cells[..i], cells), cells[i], cells[..j])
      {
        assert cells[..j + 1][..j] == cells[..j];
        model, coefficients := AddGoal(model, coefficients, cells[i], cells[j]);
        j := j + 1;
      }
      assert cells[..j] == cells;
      assert cells[..i + 1][..i] == cells[..i];
      i := i + 1;
    }
    assert cells[..|cells|] == cells;
    build := Build(model, coefficients);
  }

  /** Lines 52-118: the whole model and its coefficient dictionary. */
  method Formulate(tasks: seq<Task>, nurses: seq<Nurse>) returns (r: Build)
    ensures r == Formulation(tasks, nurses)
  {
    var insts := Instances(tasks);
    var cells := Cells(insts, nurses, Slots());
    var model := AddAssignments(Empty(), cells);
    model := AddCoverage(model, insts, nurses);
    model := AddCapacity(model, insts, nurses, Slots());
    r := AddGoals(Build(model, map[]), cells);
    // the goal sum plus the daytime bonus, maximised
    model := r.model.(sense := Maximize,
                      objective := GoalTerms(cells, cells) + DayTerms(Cells(insts, nurses, DaySlots())));
    r := r.(model := model);
  }

  /** Lines 122-132: the cells booked in the solution, in loop order. */
  method ReportSolution(status: Status, tasks: seq<Task>, nurses: seq<Nurse>, a: DVar -> real) returns (r: Report)
    ensures r == Outcome(status, tasks, nurses, a)
  {
    if !(status == Optimal || status == Feasible) {
      return NoSolution;
    }
    var cells := Cells(Instances(tasks), nurses, Slots());
    var booked := [];
    var i := 0;
    while i < |cells|
      invariant 0 <= i <= |cells|
      invariant booked == Decode(a, cells[..i])
    {
      assert cells[..i + 1][..i] == cells[..i];
      if a(X(cells[i])) == 1.0 {
        booked := booked + [Key(cells[i])];
      }
      i := i + 1;
    }
    assert cells[..|cells|] == cells;
    r := Found(booked);
  }
}
