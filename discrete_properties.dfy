/** What the discrete formulation guarantees about any assignment that
    satisfies it, and the shape of the model itself. */
module DiscreteProperties {
  import opened LinearModel
  import opened Scheduling
  import opened Discrete

  /** Every variable of the discrete model is a 0/1 variable. */
  predicate AllBoolean(m: Model<DVar>) {
    forall v :: v in m.domains ==> m.domains[v] == Boolean
  }

  /** The cell variables of cs take 0/1 values under a. */
  predicate Binary(a: DVar -> real, cs: seq<Cell>) {
    forall k :: 0 <= k < |cs| ==> a(X(cs[k])) == 0.0 || a(X(cs[k])) == 1.0
  }

  /** The two dictionaries agree: a coefficient exists exactly for the
      goal variables, and holds the weight of its pair of slots. */
  predicate Consistent(b: Build) {
    && (forall k :: k in b.coefficients ==>
          Goal(k.0, k.1) in b.model.domains && b.coefficients[k] == GoalCoefficient(k.0.time, k.1.time))
    && (forall v :: v in b.model.domains && v.Goal? ==> (v.first, v.second) in b.coefficients)
  }

  /** A cell whose instance, nurse and slot are all on the grid. */
  predicate OnGrid(c: Cell, insts: seq<Instance>, nurses: seq<Nurse>) {
    c.inst in insts && c.nurse in nurses && c.time in Slots()
  }

  /** b books instance inst: its task and instance, a listed nurse, one
      of the slots, and its variable is 1. */
  predicate Books(a: DVar -> real, b: Booking, inst: Instance, nurses: seq<Nurse>) {
    && b.taskId == inst.task.id && b.index == inst.index
    && (exists n :: n in nurses && n.id == b.nurseId)
    && b.time in Slots()
    && a(Assign(b)) == 1.0
  }

  // ---------------------------------------------------------------------
  // Slots and cells.
  // ---------------------------------------------------------------------

  /** The grid's times are the multiples of 20 minutes in the day. */
  lemma SlotsMembership()
    ensures |Slots()| == MAX_TIME / TIME_INTERVAL
    ensures forall k :: 0 <= k < |Slots()| ==> Slots()[k] == k * TIME_INTERVAL
    ensures forall t :: t in Slots() <==> 0 <= t < MAX_TIME && t % TIME_INTERVAL == 0
  {
    forall t | 0 <= t < MAX_TIME && t % TIME_INTERVAL == 0
      ensures t in Slots()
    {
      assert Slots()[t / TIME_INTERVAL] == t;
    }
  }

  /** The daytime bonus covers 7:00 up to (not including) 21:00. */
  lemma DaySlotsMembership()
    ensures forall t :: t in DaySlots() <==> 7 * 60 <= t < 21 * 60 && t % TIME_INTERVAL == 0
    ensures forall t :: t in DaySlots() ==> t in Slots()
  {
    SlotsMembership();
    forall t | 7 * 60 <= t < 21 * 60 && t % TIME_INTERVAL == 0
      ensures t in DaySlots()
    {
      assert DaySlots()[(t - 7 * 60) / TIME_INTERVAL] == t;
    }
  }

  lemma SlotCellsMembership(i: Instance, n: Nurse, slots: seq<int>)
    ensures forall c :: c in SlotCells(i, n, slots) <==> c.inst == i && c.nurse == n && c.time in slots
  {
    forall c: Cell | c.inst == i && c.nurse == n && c.time in slots
      ensures c in SlotCells(i, n, slots)
    {
      var k :| 0 <= k < |slots| && slots[k] == c.time;
      assert SlotCells(i, n, slots)[k] == c;
    }
  }

  lemma {:induction false} InstCellsMembership(i: Instance, nurses: seq<Nurse>, slots: seq<int>)
    ensures forall c :: c in InstCells(i, nurses, slots) <==> c.inst == i && c.nurse in nurses && c.time in slots
  {
    if nurses != [] {
      var front, last := nurses[..|nurses| - 1], nurses[|nurses| - 1];
      InstCellsMembership(i, front, slots);
      SlotCellsMembership(i, last, slots);
      assert nurses == front + [last];
    }
  }

  /** The nested loops visit every (instance, nurse, slot) and nothing else. */
  lemma {:induction false} CellsMembership(insts: seq<Instance>, nurses: seq<Nurse>, slots: seq<int>)
    ensures forall c :: c in Cells(insts, nurses, slots) <==> c.inst in insts && c.nurse in nurses && c.time in slots
  {
    if insts != [] {
      var front, last := insts[..|insts| - 1], insts[|insts| - 1];
      CellsMembership(front, nurses, slots);
      InstCellsMembership(last, nurses, slots);
      assert insts == front + [last];
    }
  }

  // ---------------------------------------------------------------------
  // Counting the cells that are 1.
  // ---------------------------------------------------------------------

  lemma {:induction false} DecodeAppend(a: DVar -> real, xs: seq<Cell>, ys: seq<Cell>)
    ensures Decode(a, xs + ys) == Decode(a, xs) + Decode(a, ys)
    decreases |ys|
  {
    if ys == [] {
      assert xs + ys == xs;
    } else {
      var front := ys[..|ys| - 1];
      DecodeAppend(a, xs, front);
      assert (xs + ys)[..|xs + ys| - 1] == xs + front;
    }
  }

  /** Only cells whose variable is 1 are reported. */
  lemma {:induction false} DecodeMembers(a: DVar -> real, cs: seq<Cell>)
    ensures forall b :: b in Decode(a, cs) ==> a(Assign(b)) == 1.0 && exists c :: c in cs && Key(c) == b
  {
    if cs != [] {
      var front := cs[..|cs| - 1];
      DecodeMembers(a, front);
      assert cs == front + [cs[|cs| - 1]];
    }
  }

  /** Every cell whose variable is 1 is reported. */
  lemma {:induction false} DecodeComplete(a: DVar -> real, cs: seq<Cell>, c: Cell)
    requires c in cs && a(X(c)) == 1.0
    ensures Key(c) in Decode(a, cs)
  {
    var front, last := cs[..|cs| - 1], cs[|cs| - 1];
    assert cs == front + [last];
    if c != last {
      assert c in front;
      DecodeComplete(a, front, c);
    }
  }

  lemma DecodeOne(a: DVar -> real, c: Cell)
    ensures |Decode(a, [c])| == if a(X(c)) == 1.0 then 1 else 0
  {
  }

  /** Two different positions that are 1 are both reported. */
  lemma DecodeTwo(a: DVar -> real, cs: seq<Cell>, i: nat, j: nat)
    requires i < j < |cs| && a(X(cs[i])) == 1.0 && a(X(cs[j])) == 1.0
    ensures |Decode(a, cs)| >= 2
  {
    var p, q, r := cs[..i], cs[i + 1..j], cs[j + 1..];
    assert cs == (p + [cs[i]] + q) + [cs[j]] + r;
    DecodeAppend(a, p + [cs[i]] + q + [cs[j]], r);
    DecodeAppend(a, p + [cs[i]] + q, [cs[j]]);
    DecodeAppend(a, p + [cs[i]], q);
    DecodeAppend(a, p, [cs[i]]);
    DecodeOne(a, cs[i]);
    DecodeOne(a, cs[j]);
  }

  /** For 0/1 values, the unit sum over cs counts the reported cells. */
  lemma {:induction false} UnitCount(a: DVar -> real, cs: seq<Cell>)
    requires Binary(a, cs)
    ensures Eval(UnitTerms(cs), a) == |Decode(a, cs)| as real
  {
    if cs != [] {
      var front, last := cs[..|cs| - 1], cs[|cs| - 1];
      assert Binary(a, front) by {
        forall k | 0 <= k < |front|
          ensures a(X(front[k])) == 0.0 || a(X(front[k])) == 1.0
        {
          assert front[k] == cs[k];
        }
      }
      UnitCount(a, front);
      assert UnitTerms(cs) == UnitTerms(front) + [Term(1.0, X(last))];
      EvalAppend(UnitTerms(front), [Term(1.0, X(last))], a);
      EvalOne(Term(1.0, X(last)), a);
    }
  }

  /** For 0/1 values, the daytime bonus is 10 per reported daytime cell. */
  lemma {:induction false} DayCount(a: DVar -> real, cs: seq<Cell>)
    requires Binary(a, cs)
    ensures Eval(DayTerms(cs), a) == 10.0 * |Decode(a, cs)| as real
  {
    if cs != [] {
      var front, last := cs[..|cs| - 1], cs[|cs| - 1];
      assert Binary(a, front) by {
        forall k | 0 <= k < |front|
          ensures a(X(front[k])) == 0.0 || a(X(front[k])) == 1.0
        {
          assert front[k] == cs[k];
        }
      }
      DayCount(a, front);
      assert DayTerms(cs) == DayTerms(front) + [Term(10.0, X(last))];
      EvalAppend(DayTerms(front), [Term(10.0, X(last))], a);
      EvalOne(Term(10.0, X(last)), a);
    }
  }

  /** One report per instance, in instance order, when each instance has exactly one. */
  lemma {:induction false} DecodeByInstance(a: DVar -> real, insts: seq<Instance>, nurses: seq<Nurse>, slots: seq<int>)
    requires forall k :: 0 <= k < |insts| ==> |Decode(a, InstCells(insts[k], nurses, slots))| == 1
    ensures |Decode(a, Cells(insts, nurses, slots))| == |insts|
    ensures forall k :: 0 <= k < |insts| ==>
              Decode(a, Cells(insts, nurses, slots))[k] in Decode(a, InstCells(insts[k], nurses, slots))
  {
    if insts != [] {
      var front, last := insts[..|insts| - 1], insts[|insts| - 1];
      forall k | 0 <= k < |front|
        ensures |Decode(a, InstCells(front[k], nurses, slots))| == 1
      {
        assert front[k] == insts[k];
      }
      DecodeByInstance(a, front, nurses, slots);
      var p := Decode(a, Cells(front, nurses, slots));
      var one := Decode(a, InstCells(last, nurses, slots));
      assert Cells(insts, nurses, slots) == Cells(front, nurses, slots) + InstCells(last, nurses, slots);
      DecodeAppend(a, Cells(front, nurses, slots), InstCells(last, nurses, slots));
      var r := Decode(a, Cells(insts, nurses, slots));
      assert r == p + one;
      forall k | 0 <= k < |insts|
        ensures r[k] in Decode(a, InstCells(insts[k], nurses, slots))
      {
        if k < |front| {
          assert r[k] == p[k] && front[k] == insts[k];
        } else {
          assert r[k] == one[0];
        }
      }
    }
  }

  // ---------------------------------------------------------------------
  // The passes.
  // ---------------------------------------------------------------------

  lemma {:induction false} GridPassFacts(m: Model<DVar>, cs: seq<Cell>)
    ensures Extends(m, GridPass(m, cs))
    ensures AllBoolean(m) ==> AllBoolean(GridPass(m, cs))
    ensures forall v :: v in GridPass(m, cs).domains <==>
              v in m.domains || (v.Assign? && exists c :: c in cs && Key(c) == v.booking)
  {
    if cs != [] {
      var front, last := cs[..|cs| - 1], cs[|cs| - 1];
      var p := GridPass(m, front);
      GridPassFacts(m, front);
      assert GridPass(m, cs).domains == p.domains[X(last) := Boolean];
      assert Extends(p, GridPass(m, cs));
      ExtendsTrans(m, p, GridPass(m, cs));
      forall v | v in GridPass(m, cs).domains
        ensures v in m.domains || (v.Assign? && exists c :: c in cs && Key(c) == v.booking)
      {
        if v == X(last) {
          assert cs[|cs| - 1] == last;
        } else if v !in m.domains {
          var c :| c in front && Key(c) == v.booking;
          assert c in cs;
        }
      }
      forall v: DVar | v.Assign? && (exists c :: c in cs && Key(c) == v.booking)
        ensures v in GridPass(m, cs).domains
      {
        var c :| c in cs && Key(c) == v.booking;
        if c != last {
          assert c in front;
        }
      }
    }
  }

  lemma {:induction false} GridPassHas(m: Model<DVar>, cs: seq<Cell>, i: nat)
    requires i < |cs| && cs[i].time < cs[i].inst.task.earliestStartTime
    ensures Fix(cs[i]) in GridPass(m, cs).constraints
  {
    var front := cs[..|cs| - 1];
    var p := GridPass(m, front);
    if i < |cs| - 1 {
      GridPassHas(m, front, i);
      assert front[i] == cs[i];
      assert Extends(p, GridStep(p, cs[|cs| - 1]));
      ExtendsKeeps(p, GridPass(m, cs), Fix(cs[i]));
    }
  }

  lemma {:induction false} CoveragePassFacts(m: Model<DVar>, insts: seq<Instance>, nurses: seq<Nurse>)
    ensures Extends(m, CoveragePass(m, insts, nurses))
    ensures CoveragePass(m, insts, nurses).domains == m.domains
  {
    if insts != [] {
      CoveragePassFacts(m, insts[..|insts| - 1], nurses);
    }
  }

  lemma {:induction false} CoveragePassHas(m: Model<DVar>, insts: seq<Instance>, nurses: seq<Nurse>, i: nat)
    requires i < |insts|
    ensures Coverage(insts[i], nurses) in CoveragePass(m, insts, nurses).constraints
  {
    var front := insts[..|insts| - 1];
    if i < |insts| - 1 {
      var p := CoveragePass(m, front, nurses);
      CoveragePassHas(m, front, nurses, i);
      assert front[i] == insts[i];
      ExtendsKeeps(p, CoveragePass(m, insts, nurses), Coverage(insts[i], nurses));
    }
  }

  lemma {:induction false} CapacityRowFacts(m: Model<DVar>, insts: seq<Instance>, n: Nurse, slots: seq<int>)
    ensures Extends(m, CapacityRow(m, insts, n, slots))
    ensures CapacityRow(m, insts, n, slots).domains == m.domains
  {
    if slots != [] {
      CapacityRowFacts(m, insts, n, slots[..|slots| - 1]);
    }
  }

  lemma {:induction false} CapacityPassFacts(m: Model<DVar>, insts: seq<Instance>, nurses: seq<Nurse>, slots: seq<int>)
    ensures Extends(m, CapacityPass(m, insts, nurses, slots))
    ensures CapacityPass(m, insts, nurses, slots).domains == m.domains
  {
    if nurses != [] {
      var p := CapacityPass(m, insts, nurses[..|nurses| - 1], slots);
      CapacityPassFacts(m, insts, nurses[..|nurses| - 1], slots);
      CapacityRowFacts(p, insts, nurses[|nurses| - 1], slots);
      ExtendsTrans(m, p, CapacityPass(m, insts, nurses, slots));
    }
  }

  lemma {:induction false} CapacityRowHas(m: Model<DVar>, insts: seq<Instance>, n: Nurse, slots: seq<int>, t: nat)
    requires t < |slots|
    ensures Capacity(insts, n, slots[t]) in CapacityRow(m, insts, n, slots).constraints
  {
    var front := slots[..|slots| - 1];
    if t < |slots| - 1 {
      var p := CapacityRow(m, insts, n, front);
      CapacityRowHas(m, insts, n, front, t);
      assert front[t] == slots[t];
      ExtendsKeeps(p, CapacityRow(m, insts, n, slots), Capacity(insts, n, slots[t]));
    }
  }

  lemma {:induction false} CapacityPassHas(m: Model<DVar>, insts: seq<Instance>, nurses: seq<Nurse>, slots: seq<int>,
                                           n: nat, t: nat)
    requires n < |nurses| && t < |slots|
    ensures Capacity(insts, nurses[n], slots[t]) in CapacityPass(m, insts, nurses, slots).constraints
  {
    var front := nurses[..|nurses| - 1];
    var p := CapacityPass(m, insts, front, slots);
    if n == |nurses| - 1 {
      CapacityRowHas(p, insts, nurses[n], slots, t);
    } else {
      CapacityPassHas(m, insts, front, slots, n, t);
      assert front[n] == nurses[n];
      CapacityRowFacts(p, insts, nurses[|nurses| - 1], slots);
      ExtendsKeeps(p, CapacityPass(m, insts, nurses, slots), Capacity(insts, nurses[n], slots[t]));
    }
  }

  lemma GoalStepFacts(b: Build, c: Cell, d: Cell)
    ensures Extends(b.model, GoalStep(b, c, d).model)
    ensures AllBoolean(b.model) ==> AllBoolean(GoalStep(b, c, d).model)
    ensures Consistent(b) ==> Consistent(GoalStep(b, c, d))
    ensures forall v :: v in GoalStep(b, c, d).model.domains <==>
              v in b.model.domains || (Paired(c, d) && v == G(c, d))
  {
  }

  lemma {:induction false} GoalRowFacts(b: Build, c: Cell, ds: seq<Cell>)
    ensures Extends(b.model, GoalRow(b, c, ds).model)
    ensures AllBoolean(b.model) ==> AllBoolean(GoalRow(b, c, ds).model)
    ensures Consistent(b) ==> Consistent(GoalRow(b, c, ds))
    ensures forall v :: v in GoalRow(b, c, ds).model.domains <==>
              v in b.model.domains || exists d :: d in ds && Paired(c, d) && v == G(c, d)
  {
    if ds != [] {
      var front := ds[..|ds| - 1];
      var last := ds[|ds| - 1];
      var r := GoalRow(b, c, front);
      GoalRowFacts(b, c, front);
      GoalStepFacts(r, c, last);
      assert ds == front + [last];
      ExtendsTrans(b.model, r.model, GoalRow(b, c, ds).model);
      forall v | v in GoalRow(b, c, ds).model.domains && v !in b.model.domains
        ensures exists d :: d in ds && Paired(c, d) && v == G(c, d)
      {
        if v !in r.model.domains {
          assert last in ds;
        } else {
          var d :| d in front && Paired(c, d) && v == G(c, d);
          assert d in ds;
        }
      }
      forall v | exists d :: d in ds && Paired(c, d) && v == G(c, d)
        ensures v in GoalRow(b, c, ds).model.domains
      {
        var d :| d in ds && Paired(c, d) && v == G(c, d);
        if d != last {
          assert d in front;
        }
      }
    }
  }

  lemma {:induction false} GoalPassFacts(b: Build, cs: seq<Cell>, ds: seq<Cell>)
    ensures Extends(b.model, GoalPass(b, cs, ds).model)
    ensures AllBoolean(b.model) ==> AllBoolean(GoalPass(b, cs, ds).model)
    ensures Consistent(b) ==> Consistent(GoalPass(b, cs, ds))
    ensures forall v :: v in GoalPass(b, cs, ds).model.domains <==>
              v in b.model.domains || exists c, d :: c in cs && d in ds && Paired(c, d) && v == G(c, d)
  {
    if cs != [] {
      var front := cs[..|cs| - 1];
      var p := GoalPass(b, front, ds);
      GoalPassFacts(b, front, ds);
      GoalRowFacts(p, cs[|cs| - 1], ds);
      assert cs == front + [cs[|cs| - 1]];
      ExtendsTrans(b.model, p.model, GoalPass(b, cs, ds).model);
    }
  }

  lemma {:induction false} GoalRowHas(b: Build, c: Cell, ds: seq<Cell>, j: nat)
    requires j < |ds| && Paired(c, ds[j])
    ensures BothOrNothing(c, ds[j]) in GoalRow(b, c, ds).model.constraints
    ensures TooClose(c, ds[j]) ==> Separation(c, ds[j]) in GoalRow(b, c, ds).model.constraints
  {
    var front := ds[..|ds| - 1];
    var r := GoalRow(b, c, front);
    if j < |ds| - 1 {
      GoalRowHas(b, c, front, j);
      assert front[j] == ds[j];
      assert Extends(r.model, GoalStep(r, c, ds[|ds| - 1]).model);
      ExtendsKeeps(r.model, GoalRow(b, c, ds).model, BothOrNothing(c, ds[j]));
      if TooClose(c, ds[j]) {
        ExtendsKeeps(r.model, GoalRow(b, c, ds).model, Separation(c, ds[j]));
      }
    }
  }

  lemma {:induction false} GoalPassHas(b: Build, cs: seq<Cell>, ds: seq<Cell>, i: nat, j: nat)
    requires i < |cs| && j < |ds| && Paired(cs[i], ds[j])
    ensures BothOrNothing(cs[i], ds[j]) in GoalPass(b, cs, ds).model.constraints
    ensures TooClose(cs[i], ds[j]) ==> Separation(cs[i], ds[j]) in GoalPass(b, cs, ds).model.constraints
  {
    var front := cs[..|cs| - 1];
    var p := GoalPass(b, front, ds);
    if i == |cs| - 1 {
      GoalRowHas(p, cs[i], ds, j);
    } else {
      GoalPassHas(b, front, ds, i, j);
      assert front[i] == cs[i];
      GoalRowFacts(p, cs[|cs| - 1], ds);
      ExtendsKeeps(p.model, GoalPass(b, cs, ds).model, BothOrNothing(cs[i], ds[j]));
      if TooClose(cs[i], ds[j]) {
        ExtendsKeeps(p.model, GoalPass(b, cs, ds).model, Separation(cs[i], ds[j]));
      }
    }
  }

  // ---------------------------------------------------------------------
  // Where the constraints "variable == 0" come from.
  // ---------------------------------------------------------------------

  /** The equation fixing the variable of b to 0. */
  function FixKey(b: Booking): Constraint<DVar> {
    Linear([Term(1.0, Assign(b))], Equal, 0.0)
  }

  /** A linear equation with right-hand side 0, the shape of a fixing equation. */
  predicate Zeroes(k: Constraint<DVar>) {
    k.Linear? && k.rel == Equal && k.bound == 0.0
  }

  lemma {:induction false} GridPassFixes(m: Model<DVar>, cs: seq<Cell>, b: Booking)
    ensures FixKey(b) in GridPass(m, cs).constraints <==>
              FixKey(b) in m.constraints || exists c :: c in cs && Key(c) == b && c.time < c.inst.task.earliestStartTime
  {
    if cs != [] {
      var front, last := cs[..|cs| - 1], cs[|cs| - 1];
      var p := GridPass(m, front);
      GridPassFixes(m, front, b);
      assert Fix(last) == FixKey(Key(last));
      if FixKey(b) in GridPass(m, cs).constraints && FixKey(b) !in p.constraints {
        assert last in cs;
      }
      if exists c :: c in cs && Key(c) == b && c.time < c.inst.task.earliestStartTime {
        var c :| c in cs && Key(c) == b && c.time < c.inst.task.earliestStartTime;
        if c != last {
          assert c in front;
        }
      }
    }
  }

  lemma {:induction false} CoveragePassZeroes(m: Model<DVar>, insts: seq<Instance>, nurses: seq<Nurse>)
    ensures forall k :: k in CoveragePass(m, insts, nurses).constraints && Zeroes(k) ==> k in m.constraints
  {
    if insts != [] {
      CoveragePassZeroes(m, insts[..|insts| - 1], nurses);
    }
  }

  lemma {:induction false} CapacityRowZeroes(m: Model<DVar>, insts: seq<Instance>, n: Nurse, slots: seq<int>)
    ensures forall k :: k in CapacityRow(m, insts, n, slots).constraints && Zeroes(k) ==> k in m.constraints
  {
    if slots != [] {
      CapacityRowZeroes(m, insts, n, slots[..|slots| - 1]);
    }
  }

  lemma {:induction false} CapacityPassZeroes(m: Model<DVar>, insts: seq<Instance>, nurses: seq<Nurse>, slots: seq<int>)
    ensures forall k :: k in CapacityPass(m, insts, nurses, slots).constraints && Zeroes(k) ==> k in m.constraints
  {
    if nurses != [] {
      var p := CapacityPass(m, insts, nurses[..|nurses| - 1], slots);
      CapacityPassZeroes(m, insts, nurses[..|nurses| - 1], slots);
      CapacityRowZeroes(p, insts, nurses[|nurses| - 1], slots);
    }
  }

  lemma {:induction false} GoalRowZeroes(b: Build, c: Cell, ds: seq<Cell>)
    ensures forall k :: k in GoalRow(b, c, ds).model.constraints && Zeroes(k) ==> k in b.model.constraints
  {
    if ds != [] {
      GoalRowZeroes(b, c, ds[..|ds| - 1]);
    }
  }

  lemma {:induction false} GoalPassZeroes(b: Build, cs: seq<Cell>, ds: seq<Cell>)
    ensures forall k :: k in GoalPass(b, cs, ds).model.constraints && Zeroes(k) ==> k in b.model.constraints
  {
    if cs != [] {
      var p := GoalPass(b, cs[..|cs| - 1], ds);
      GoalPassZeroes(b, cs[..|cs| - 1], ds);
      GoalRowZeroes(p, cs[|cs| - 1], ds);
    }
  }

  /** Each stage of the handler survives into the final model. */
  lemma StagesExtend(tasks: seq<Task>, nurses: seq<Nurse>)
    ensures var insts := Instances(tasks);
            var cells := Cells(insts, nurses, Slots());
            var m1 := GridPass(Empty(), cells);
            var m2 := CoveragePass(m1, insts, nurses);
            var m3 := CapacityPass(m2, insts, nurses, Slots());
            var f := Formulation(tasks, nurses).model;
            && Extends(m1, f) && Extends(m2, f) && Extends(m3, f)
            && Extends(GoalPass(Build(m3, map[]), cells, cells).model, f)
  {
    var insts := Instances(tasks);
    var cells := Cells(insts, nurses, Slots());
    var m1 := GridPass(Empty(), cells);
    var m2 := CoveragePass(m1, insts, nurses);
    var m3 := CapacityPass(m2, insts, nurses, Slots());
    var b := GoalPass(Build(m3, map[]), cells, cells);
    CoveragePassFacts(m1, insts, nurses);
    CapacityPassFacts(m2, insts, nurses, Slots());
    GoalPassFacts(Build(m3, map[]), cells, cells);
    ExtendsTrans(m2, m3, b.model);
    ExtendsTrans(m1, m2, b.model);
  }

  /** v is the variable of one of the cells cs. */
  predicate CellKey(v: DVar, cs: seq<Cell>) {
    v.Assign? && exists c :: c in cs && Key(c) == v.booking
  }

  /** v is the goal variable of two paired cells of cs. */
  predicate PairKey(v: DVar, cs: seq<Cell>) {
    exists c, d :: c in cs && d in cs && Paired(c, d) && v == G(c, d)
  }

  /** The variables of the final model: the cell variables of the grid
      pass and the goal variables of the paired cells. */
  lemma StagesKeys(tasks: seq<Task>, nurses: seq<Nurse>)
    ensures var cells := Cells(Instances(tasks), nurses, Slots());
            forall v :: v in Formulation(tasks, nurses).model.domains <==> CellKey(v, cells) || PairKey(v, cells)
  {
    var insts := Instances(tasks);
    var cells := Cells(insts, nurses, Slots());
    var m1 := GridPass(Empty(), cells);
    var m2 := CoveragePass(m1, insts, nurses);
    var m3 := CapacityPass(m2, insts, nurses, Slots());
    GridPassFacts(Empty(), cells);
    CoveragePassFacts(m1, insts, nurses);
    CapacityPassFacts(m2, insts, nurses, Slots());
    GoalPassFacts(Build(m3, map[]), cells, cells);
  }

  /** Every variable is 0/1 and the coefficient dictionary matches the
      goal variables. */
  lemma StagesTyped(tasks: seq<Task>, nurses: seq<Nurse>)
    ensures AllBoolean(Formulation(tasks, nurses).model)
    ensures Consistent(Formulation(tasks, nurses))
  {
    var insts := Instances(tasks);
    var cells := Cells(insts, nurses, Slots());
    var m1 := GridPass(Empty(), cells);
    var m2 := CoveragePass(m1, insts, nurses);
    var m3 := CapacityPass(m2, insts, nurses, Slots());
    GridPassFacts(Empty(), cells);
    CoveragePassFacts(m1, insts, nurses);
    CapacityPassFacts(m2, insts, nurses, Slots());
    assert Consistent(Build(m3, map[]));
    GoalPassFacts(Build(m3, map[]), cells, cells);
  }

  /** Lines 66-67: the variable of b is fixed to 0 exactly when b is the key of
      a grid cell whose slot is before its task's earliest start time;
      no other pass emits an equation with right-hand side 0. */
  lemma FixedKeys(tasks: seq<Task>, nurses: seq<Nurse>, b: Booking)
    ensures FixKey(b) in Formulation(tasks, nurses).model.constraints <==>
              exists c :: c in Cells(Instances(tasks), nurses, Slots()) && Key(c) == b
                          && c.time < c.inst.task.earliestStartTime
  {
    var insts := Instances(tasks);
    var cells := Cells(insts, nurses, Slots());
    var m1 := GridPass(Empty(), cells);
    var m2 := CoveragePass(m1, insts, nurses);
    var m3 := CapacityPass(m2, insts, nurses, Slots());
    var m := Formulation(tasks, nurses).model;
    GridPassFixes(Empty(), cells, b);
    StagesExtend(tasks, nurses);
    CoveragePassZeroes(m1, insts, nurses);
    CapacityPassZeroes(m2, insts, nurses, Slots());
    GoalPassZeroes(Build(m3, map[]), cells, cells);
    if FixKey(b) in m1.constraints {
      ExtendsKeeps(m1, m, FixKey(b));
    }
    assert m.constraints == GoalPass(Build(m3, map[]), cells, cells).model.constraints;
  }

  // ---------------------------------------------------------------------
  // The variables.
  // ---------------------------------------------------------------------

  /** Lines 61-65: a cell variable exists exactly for a task instance, a
      listed nurse and a slot. */
  lemma AssignKeys(tasks: seq<Task>, nurses: seq<Nurse>)
    ensures forall b :: Assign(b) in Formulation(tasks, nurses).model.domains <==>
              && HasInstance(tasks, b.taskId, b.index)
              && (exists n :: n in nurses && n.id == b.nurseId)
              && b.time in Slots()
  {
    var insts := Instances(tasks);
    var cells := Cells(insts, nurses, Slots());
    StagesKeys(tasks, nurses);
    CellsMembership(insts, nurses, Slots());
    forall b
      ensures Assign(b) in Formulation(tasks, nurses).model.domains <==>
              && HasInstance(tasks, b.taskId, b.index)
              && (exists n :: n in nurses && n.id == b.nurseId)
              && b.time in Slots()
    {
      HasInstanceIff(tasks, b.taskId, b.index);
      if CellKey(Assign(b), cells) {
        var c :| c in cells && Key(c) == b;
        assert KeyOf(c.inst) == (b.taskId, b.index);
      }
      if HasInstance(tasks, b.taskId, b.index) && (exists n :: n in nurses && n.id == b.nurseId) && b.time in Slots() {
        var i :| i in insts && KeyOf(i) == (b.taskId, b.index);
        var n :| n in nurses && n.id == b.nurseId;
        assert Cell(i, n, b.time) in cells && Key(Cell(i, n, b.time)) == b;
      }
    }
  }

  /** The goal keys of a domain map built from cells as the final model is. */
  lemma GoalKeysOf(dom: map<DVar, Domain>, cells: seq<Cell>, b1: Booking, b2: Booking)
    requires forall v :: v in dom <==> CellKey(v, cells) || PairKey(v, cells)
    ensures Goal(b1, b2) in dom <==>
              && Assign(b1) in dom && Assign(b2) in dom
              && (b1.taskId != b2.taskId || b1.index != b2.index || b1.time != b2.time)
  {
    if Goal(b1, b2) in dom {
      assert PairKey(Goal(b1, b2), cells);
      var c, d :| c in cells && d in cells && Paired(c, d) && Goal(b1, b2) == G(c, d);
      assert CellKey(Assign(b1), cells) && CellKey(Assign(b2), cells);
    }
    if Assign(b1) in dom && Assign(b2) in dom &&
       (b1.taskId != b2.taskId || b1.index != b2.index || b1.time != b2.time) {
      assert CellKey(Assign(b1), cells) && CellKey(Assign(b2), cells);
      var c :| c in cells && Key(c) == b1;
      var d :| d in cells && Key(d) == b2;
      assert Paired(c, d) && Goal(b1, b2) == G(c, d);
      assert PairKey(Goal(b1, b2), cells);
    }
  }

  /** Lines 90-95: a goal variable exists exactly for two cell variables
      whose (task id, instance, time) differ. */
  lemma GoalKeys(tasks: seq<Task>, nurses: seq<Nurse>, b1: Booking, b2: Booking)
    ensures var m := Formulation(tasks, nurses).model;
            Goal(b1, b2) in m.domains <==>
              && Assign(b1) in m.domains && Assign(b2) in m.domains
              && (b1.taskId != b2.taskId || b1.index != b2.index || b1.time != b2.time)
  {
    StagesKeys(tasks, nurses);
    GoalKeysOf(Formulation(tasks, nurses).model.domains, Cells(Instances(tasks), nurses, Slots()), b1, b2);
  }

  /** Lines 98-107: the coefficient dictionary has a weight for exactly
      the goal variables, and it is the weight of their slots. */
  lemma CoefficientKeys(tasks: seq<Task>, nurses: seq<Nurse>)
    ensures var f := Formulation(tasks, nurses);
            forall b1, b2 :: (b1, b2) in f.coefficients <==> Goal(b1, b2) in f.model.domains
    ensures var f := Formulation(tasks, nurses);
            forall k :: k in f.coefficients ==> f.coefficients[k] == GoalCoefficient(k.0.time, k.1.time)
  {
    StagesTyped(tasks, nurses);
  }

  lemma {:induction false} GoalRowTermsMembers(c: Cell, ds: seq<Cell>)
    ensures forall t :: t in GoalRowTerms(c, ds) ==>
              exists d :: d in ds && Paired(c, d) && t == Term(GoalCoefficient(c.time, d.time), G(c, d))
  {
    if ds != [] {
      var front, last := ds[..|ds| - 1], ds[|ds| - 1];
      GoalRowTermsMembers(c, front);
      forall t | t in GoalRowTerms(c, ds)
        ensures exists d :: d in ds && Paired(c, d) && t == Term(GoalCoefficient(c.time, d.time), G(c, d))
      {
        if t in GoalRowTerms(c, front) {
          var d :| d in front && Paired(c, d) && t == Term(GoalCoefficient(c.time, d.time), G(c, d));
          assert d in ds;
        } else {
          assert last in ds;
        }
      }
    }
  }

  lemma {:induction false} GoalTermsMembers(cs: seq<Cell>, ds: seq<Cell>)
    ensures forall t :: t in GoalTerms(cs, ds) ==>
              exists c, d :: c in cs && d in ds && Paired(c, d) && t == Term(GoalCoefficient(c.time, d.time), G(c, d))
  {
    if cs != [] {
      var front, last := cs[..|cs| - 1], cs[|cs| - 1];
      GoalTermsMembers(front, ds);
      GoalRowTermsMembers(last, ds);
      forall t | t in GoalTerms(cs, ds)
        ensures exists c, d :: c in cs && d in ds && Paired(c, d) && t == Term(GoalCoefficient(c.time, d.time), G(c, d))
      {
        if t in GoalTerms(front, ds) {
          var c, d :| c in front && d in ds && Paired(c, d) && t == Term(GoalCoefficient(c.time, d.time), G(c, d));
          assert c in cs;
        } else {
          var d :| d in ds && Paired(last, d) && t == Term(GoalCoefficient(last.time, d.time), G(last, d));
          assert last in cs;
        }
      }
    }
  }

  /** Line 116: every lookup of the objective's goal sum hits; each term
      is a declared goal variable times its dictionary weight. */
  lemma ObjectiveLookups(tasks: seq<Task>, nurses: seq<Nurse>, t: Term<DVar>)
    requires t in GoalTerms(Cells(Instances(tasks), nurses, Slots()), Cells(Instances(tasks), nurses, Slots()))
    ensures var f := Formulation(tasks, nurses);
            && t.v in f.model.domains && t.v.Goal?
            && (t.v.first, t.v.second) in f.coefficients
            && f.coefficients[(t.v.first, t.v.second)] == t.coef
  {
    var cells := Cells(Instances(tasks), nurses, Slots());
    GoalTermsMembers(cells, cells);
    var c, d :| c in cells && d in cells && Paired(c, d) && t == Term(GoalCoefficient(c.time, d.time), G(c, d));
    StagesKeys(tasks, nurses);
    StagesTyped(tasks, nurses);
    assert PairKey(G(c, d), cells);
  }

  lemma {:induction false} GoalRowTermsHas(c: Cell, ds: seq<Cell>, d: Cell)
    requires d in ds && Paired(c, d)
    ensures Term(GoalCoefficient(c.time, d.time), G(c, d)) in GoalRowTerms(c, ds)
  {
    var front, last := ds[..|ds| - 1], ds[|ds| - 1];
    if d != last {
      assert d in front;
      GoalRowTermsHas(c, front, d);
    }
  }

  lemma {:induction false} GoalTermsHas(cs: seq<Cell>, ds: seq<Cell>, c: Cell, d: Cell)
    requires c in cs && d in ds && Paired(c, d)
    ensures Term(GoalCoefficient(c.time, d.time), G(c, d)) in GoalTerms(cs, ds)
  {
    var front, last := cs[..|cs| - 1], cs[|cs| - 1];
    if c == last {
      GoalRowTermsHas(c, ds, d);
    } else {
      assert c in front;
      GoalTermsHas(front, ds, c, d);
    }
  }

  /** Lines 95 and 116 use the same filter: every declared goal variable
      has a weight, and its weighted term is part of the objective's goal
      sum. */
  lemma ObjectiveComplete(tasks: seq<Task>, nurses: seq<Nurse>, b1: Booking, b2: Booking)
    ensures var f := Formulation(tasks, nurses);
            var cells := Cells(Instances(tasks), nurses, Slots());
            Goal(b1, b2) in f.model.domains ==>
              && (b1, b2) in f.coefficients
              && Term(f.coefficients[(b1, b2)], Goal(b1, b2)) in GoalTerms(cells, cells)
  {
    var f := Formulation(tasks, nurses);
    var cells := Cells(Instances(tasks), nurses, Slots());
    StagesKeys(tasks, nurses);
    StagesTyped(tasks, nurses);
    if Goal(b1, b2) in f.model.domains {
      assert PairKey(Goal(b1, b2), cells);
      var c, d :| c in cells && d in cells && Paired(c, d) && Goal(b1, b2) == G(c, d);
      GoalTermsHas(cells, cells, c, d);
      assert f.coefficients[(b1, b2)] == GoalCoefficient(c.time, d.time);
    }
  }

  /** Lines 98-107: the weight is 40 within two intervals and 0 beyond;
      the 80 of line 103 is always overwritten by line 107. */
  lemma CoefficientTiers(t1: int, t2: int)
    ensures GoalCoefficient(t1, t2) == if Abs(t1 - t2) <= 2 * TIME_INTERVAL then 40.0 else 0.0
    ensures GoalCoefficient(t1, t2) != 80.0
    ensures GoalCoefficient(t1, t2) == GoalCoefficient(t2, t1)
  {
  }

  // ---------------------------------------------------------------------
  // Any satisfying assignment.
  // ---------------------------------------------------------------------

  lemma VariableBinary(a: DVar -> real, m: Model<DVar>, v: DVar)
    requires Satisfies(a, m) && AllBoolean(m) && v in m.domains
    ensures a(v) == 0.0 || a(v) == 1.0
  {
  }

  lemma CellBinary(cells: seq<Cell>, m: Model<DVar>, a: DVar -> real, c: Cell)
    requires Extends(GridPass(Empty(), cells), m) && Satisfies(a, m) && AllBoolean(m)
    requires c in cells
    ensures a(X(c)) == 0.0 || a(X(c)) == 1.0
  {
    GridPassFacts(Empty(), cells);
    assert X(c) in GridPass(Empty(), cells).domains;
    VariableBinary(a, m, X(c));
  }

  /** Every cell variable on the grid is 0 or 1. */
  lemma CellsBinary(tasks: seq<Task>, nurses: seq<Nurse>, a: DVar -> real)
    requires Satisfies(a, Formulation(tasks, nurses).model)
    ensures forall c :: OnGrid(c, Instances(tasks), nurses) ==> a(X(c)) == 0.0 || a(X(c)) == 1.0
  {
    var insts := Instances(tasks);
    var cells := Cells(insts, nurses, Slots());
    var m := Formulation(tasks, nurses).model;
    StagesExtend(tasks, nurses);
    StagesTyped(tasks, nurses);
    CellsMembership(insts, nurses, Slots());
    forall c | OnGrid(c, insts, nurses)
      ensures a(X(c)) == 0.0 || a(X(c)) == 1.0
    {
      CellBinary(cells, m, a, c);
    }
  }

  lemma BinaryOnGrid(tasks: seq<Task>, nurses: seq<Nurse>, a: DVar -> real, cs: seq<Cell>)
    requires Satisfies(a, Formulation(tasks, nurses).model)
    requires forall k :: 0 <= k < |cs| ==> OnGrid(cs[k], Instances(tasks), nurses)
    ensures Binary(a, cs)
  {
    CellsBinary(tasks, nurses, a);
  }

  /** Line 67: no instance starts before its task's earliest start time. */
  lemma SolutionRespectsEarliest(tasks: seq<Task>, nurses: seq<Nurse>, a: DVar -> real, c: Cell)
    requires Satisfies(a, Formulation(tasks, nurses).model)
    requires OnGrid(c, Instances(tasks), nurses) && c.time < c.inst.task.earliestStartTime
    ensures a(X(c)) == 0.0
  {
    var insts := Instances(tasks);
    var cells := Cells(insts, nurses, Slots());
    var m := Formulation(tasks, nurses).model;
    StagesExtend(tasks, nurses);
    CellsMembership(insts, nurses, Slots());
    assert c in cells;
    var i :| 0 <= i < |cells| && cells[i] == c;
    GridPassHas(Empty(), cells, i);
    ExtendsKeeps(GridPass(Empty(), cells), m, Fix(c));
    SatisfiedConstraint(a, m, Fix(c));
    EvalOne(Term(1.0, X(c)), a);
  }

  /** The coverage constraint of every instance is in the final model. */
  lemma CoverageIn(tasks: seq<Task>, nurses: seq<Nurse>, k: nat)
    requires k < |Instances(tasks)|
    ensures Coverage(Instances(tasks)[k], nurses) in Formulation(tasks, nurses).model.constraints
  {
    var insts := Instances(tasks);
    var m1 := GridPass(Empty(), Cells(insts, nurses, Slots()));
    StagesExtend(tasks, nurses);
    CoveragePassHas(m1, insts, nurses, k);
    ExtendsKeeps(CoveragePass(m1, insts, nurses), Formulation(tasks, nurses).model, Coverage(insts[k], nurses));
  }

  /** Line 72: each instance has exactly one cell that is 1. */
  lemma SolutionCoverage(tasks: seq<Task>, nurses: seq<Nurse>, a: DVar -> real, k: nat)
    requires Satisfies(a, Formulation(tasks, nurses).model)
    requires k < |Instances(tasks)|
    ensures |Decode(a, InstCells(Instances(tasks)[k], nurses, Slots()))| == 1
  {
    var insts := Instances(tasks);
    var cs := InstCells(insts[k], nurses, Slots());
    CoverageIn(tasks, nurses, k);
    SatisfiedConstraint(a, Formulation(tasks, nurses).model, Coverage(insts[k], nurses));
    InstCellsMembership(insts[k], nurses, Slots());
    assert forall j :: 0 <= j < |cs| ==> cs[j] in cs;
    BinaryOnGrid(tasks, nurses, a, cs);
    UnitCount(a, cs);
  }

  /** A reported cell of instance inst books inst at a time it may start. */
  lemma BookedCell(tasks: seq<Task>, nurses: seq<Nurse>, a: DVar -> real, k: nat, b: Booking)
    requires Satisfies(a, Formulation(tasks, nurses).model)
    requires k < |Instances(tasks)|
    requires b in Decode(a, InstCells(Instances(tasks)[k], nurses, Slots()))
    ensures Books(a, b, Instances(tasks)[k], nurses)
    ensures b.time >= Instances(tasks)[k].task.earliestStartTime
  {
    var inst := Instances(tasks)[k];
    DecodeMembers(a, InstCells(inst, nurses, Slots()));
    InstCellsMembership(inst, nurses, Slots());
    var c :| c in InstCells(inst, nurses, Slots()) && Key(c) == b;
    if b.time < inst.task.earliestStartTime {
      SolutionRespectsEarliest(tasks, nurses, a, c);
      assert false;
    }
  }

  /** Lines 122-130 on any satisfying assignment: exactly one booking per
      task instance, in instance order, each by a listed nurse in a slot
      no earlier than the task's earliest start time. */
  lemma SolutionSchedule(tasks: seq<Task>, nurses: seq<Nurse>, a: DVar -> real)
    requires Satisfies(a, Formulation(tasks, nurses).model)
    ensures var insts := Instances(tasks);
            var r := Decode(a, Cells(insts, nurses, Slots()));
            && |r| == |insts|
            && forall k :: 0 <= k < |insts| ==>
                 Books(a, r[k], insts[k], nurses) && r[k].time >= insts[k].task.earliestStartTime
  {
    var insts := Instances(tasks);
    forall k | 0 <= k < |insts|
      ensures |Decode(a, InstCells(insts[k], nurses, Slots()))| == 1
    {
      SolutionCoverage(tasks, nurses, a, k);
    }
    DecodeByInstance(a, insts, nurses, Slots());
    var r := Decode(a, Cells(insts, nurses, Slots()));
    forall k | 0 <= k < |insts|
      ensures Books(a, r[k], insts[k], nurses) && r[k].time >= insts[k].task.earliestStartTime
    {
      BookedCell(tasks, nurses, a, k, r[k]);
    }
  }

  /** The grid cell behind the k-th booking of the report. */
  lemma ReportedCell(tasks: seq<Task>, nurses: seq<Nurse>, a: DVar -> real, k: nat) returns (c: Cell)
    requires Satisfies(a, Formulation(tasks, nurses).model)
    requires k < |Instances(tasks)|
    ensures var r := Decode(a, Cells(Instances(tasks), nurses, Slots()));
            && |r| == |Instances(tasks)|
            && OnGrid(c, Instances(tasks), nurses) && c.inst == Instances(tasks)[k] && Key(c) == r[k]
            && c.time == r[k].time && a(X(c)) == 1.0
  {
    var insts := Instances(tasks);
    var r := Decode(a, Cells(insts, nurses, Slots()));
    SolutionSchedule(tasks, nurses, a);
    assert Books(a, r[k], insts[k], nurses);
    var n :| n in nurses && n.id == r[k].nurseId;
    c := Cell(insts[k], n, r[k].time);
    assert insts[k] in insts;
  }

  /** Two different positions of a 0/1 sum bounded by 1 are not both 1. */
  lemma AtMostOneOn(a: DVar -> real, cs: seq<Cell>, k1: nat, k2: nat)
    requires Binary(a, cs) && Eval(UnitTerms(cs), a) <= 1.0 && k1 < k2 < |cs|
    ensures !(a(X(cs[k1])) == 1.0 && a(X(cs[k2])) == 1.0)
  {
    UnitCount(a, cs);
    if a(X(cs[k1])) == 1.0 && a(X(cs[k2])) == 1.0 {
      DecodeTwo(a, cs, k1, k2);
    }
  }

  lemma CapacityHolds(tasks: seq<Task>, nurses: seq<Nurse>, a: DVar -> real, n: Nurse, t: int)
    requires Satisfies(a, Formulation(tasks, nurses).model)
    requires n in nurses && t in Slots()
    ensures Eval(UnitTerms(Column(Instances(tasks), n, t)), a) <= 1.0
  {
    var insts := Instances(tasks);
    var m := Formulation(tasks, nurses).model;
    var m2 := CoveragePass(GridPass(Empty(), Cells(insts, nurses, Slots())), insts, nurses);
    StagesExtend(tasks, nurses);
    var ni :| 0 <= ni < |nurses| && nurses[ni] == n;
    var ti :| 0 <= ti < |Slots()| && Slots()[ti] == t;
    CapacityPassHas(m2, insts, nurses, Slots(), ni, ti);
    ExtendsKeeps(CapacityPass(m2, insts, nurses, Slots()), m, Capacity(insts, n, t));
    SatisfiedConstraint(a, m, Capacity(insts, n, t));
  }

  /** Line 77: a nurse does at most one instance per slot. */
  lemma SolutionNurseFreeAt(tasks: seq<Task>, nurses: seq<Nurse>, a: DVar -> real, n: Nurse, t: int, k1: nat, k2: nat)
    requires Satisfies(a, Formulation(tasks, nurses).model)
    requires n in nurses && t in Slots() && k1 < k2 < |Instances(tasks)|
    ensures !(a(X(Cell(Instances(tasks)[k1], n, t))) == 1.0 && a(X(Cell(Instances(tasks)[k2], n, t))) == 1.0)
  {
    var insts := Instances(tasks);
    var col := Column(insts, n, t);
    CapacityHolds(tasks, nurses, a, n, t);
    assert forall j :: 0 <= j < |col| ==> col[j].inst == insts[j] && insts[j] in insts;
    BinaryOnGrid(tasks, nurses, a, col);
    AtMostOneOn(a, col, k1, k2);
  }

  /** Line 77 on the report: two bookings of one nurse are at different times. */
  lemma SolutionNurseFree(tasks: seq<Task>, nurses: seq<Nurse>, a: DVar -> real)
    requires Satisfies(a, Formulation(tasks, nurses).model)
    ensures var r := Decode(a, Cells(Instances(tasks), nurses, Slots()));
            forall k1, k2 :: 0 <= k1 < k2 < |r| && r[k1].nurseId == r[k2].nurseId ==> r[k1].time != r[k2].time
  {
    var insts := Instances(tasks);
    var r := Decode(a, Cells(insts, nurses, Slots()));
    SolutionSchedule(tasks, nurses, a);
    forall k1, k2 | 0 <= k1 < k2 < |r| && r[k1].nurseId == r[k2].nurseId
      ensures r[k1].time != r[k2].time
    {
      assert Books(a, r[k1], insts[k1], nurses) && Books(a, r[k2], insts[k2], nurses);
      var n :| n in nurses && n.id == r[k1].nurseId;
      if r[k1].time == r[k2].time {
        assert Key(Cell(insts[k1], n, r[k1].time)) == r[k1];
        assert Key(Cell(insts[k2], n, r[k1].time)) == r[k2];
        SolutionNurseFreeAt(tasks, nurses, a, n, r[k1].time, k1, k2);
      }
    }
  }

  lemma GoalPassIn(b: Build, cs: seq<Cell>, c: Cell, d: Cell)
    requires c in cs && d in cs && Paired(c, d)
    ensures BothOrNothing(c, d) in GoalPass(b, cs, cs).model.constraints
    ensures TooClose(c, d) ==> Separation(c, d) in GoalPass(b, cs, cs).model.constraints
  {
    var i :| 0 <= i < |cs| && cs[i] == c;
    var j :| 0 <= j < |cs| && cs[j] == d;
    GoalPassHas(b, cs, cs, i, j);
  }

  /** The goal constraints of two paired grid cells are in the final model. */
  lemma GoalConstraintsIn(tasks: seq<Task>, nurses: seq<Nurse>, c: Cell, d: Cell)
    requires OnGrid(c, Instances(tasks), nurses) && OnGrid(d, Instances(tasks), nurses) && Paired(c, d)
    ensures BothOrNothing(c, d) in Formulation(tasks, nurses).model.constraints
    ensures TooClose(c, d) ==> Separation(c, d) in Formulation(tasks, nurses).model.constraints
  {
    var insts := Instances(tasks);
    var cells := Cells(insts, nurses, Slots());
    var m3 := CapacityPass(CoveragePass(GridPass(Empty(), cells), insts, nurses), insts, nurses, Slots());
    var g := GoalPass(Build(m3, map[]), cells, cells).model;
    StagesExtend(tasks, nurses);
    CellsMembership(insts, nurses, Slots());
    GoalPassIn(Build(m3, map[]), cells, c, d);
    ExtendsKeeps(g, Formulation(tasks, nurses).model, BothOrNothing(c, d));
    if TooClose(c, d) {
      ExtendsKeeps(g, Formulation(tasks, nurses).model, Separation(c, d));
    }
  }

  /** Lines 110-112: two instances of one task are never less than its
      minimum separation apart. */
  lemma SolutionSeparatedAt(tasks: seq<Task>, nurses: seq<Nurse>, a: DVar -> real, c: Cell, d: Cell)
    requires Satisfies(a, Formulation(tasks, nurses).model)
    requires OnGrid(c, Instances(tasks), nurses) && OnGrid(d, Instances(tasks), nurses) && TooClose(c, d)
    ensures !(a(X(c)) == 1.0 && a(X(d)) == 1.0)
  {
    GoalConstraintsIn(tasks, nurses, c, d);
    SatisfiedConstraint(a, Formulation(tasks, nurses).model, Separation(c, d));
    EvalTwo(Term(1.0, X(c)), Term(1.0, X(d)), a);
  }

  /** Lines 110-112 on the report. */
  lemma SolutionSeparated(tasks: seq<Task>, nurses: seq<Nurse>, a: DVar -> real, k1: nat, k2: nat)
    requires Satisfies(a, Formulation(tasks, nurses).model)
    requires k1 < |Instances(tasks)| && k2 < |Instances(tasks)|
    requires Instances(tasks)[k1].task.id == Instances(tasks)[k2].task.id
    requires Instances(tasks)[k1].index != Instances(tasks)[k2].index
    ensures var r := Decode(a, Cells(Instances(tasks), nurses, Slots()));
            |r| == |Instances(tasks)| &&
            Abs(r[k1].time - r[k2].time) >= Instances(tasks)[k1].task.minimumSeparation
  {
    var c := ReportedCell(tasks, nurses, a, k1);
    var d := ReportedCell(tasks, nurses, a, k2);
    if Abs(c.time - d.time) < c.inst.task.minimumSeparation {
      SolutionSeparatedAt(tasks, nurses, a, c, d);
    }
  }

  /** Line 96: a goal variable that is 1 has both of its cells at 1. */
  lemma SolutionGoal(tasks: seq<Task>, nurses: seq<Nurse>, a: DVar -> real, c: Cell, d: Cell)
    requires Satisfies(a, Formulation(tasks, nurses).model)
    requires OnGrid(c, Instances(tasks), nurses) && OnGrid(d, Instances(tasks), nurses) && Paired(c, d)
    ensures a(G(c, d)) == 0.0 || a(G(c, d)) == 1.0
    ensures a(G(c, d)) == 1.0 ==> a(X(c)) == 1.0 && a(X(d)) == 1.0
  {
    var cells := Cells(Instances(tasks), nurses, Slots());
    var m := Formulation(tasks, nurses).model;
    GoalConstraintsIn(tasks, nurses, c, d);
    SatisfiedConstraint(a, m, BothOrNothing(c, d));
    StagesTyped(tasks, nurses);
    StagesKeys(tasks, nurses);
    CellsMembership(Instances(tasks), nurses, Slots());
    assert PairKey(G(c, d), cells);
    VariableBinary(a, m, G(c, d));
    assert [X(c), X(d)][0] == X(c) && [X(c), X(d)][1] == X(d);
  }

  /** Lines 122-132: a report exists exactly for OPTIMAL and FEASIBLE, and
      it lists exactly the keys of grid cells whose value is 1. */
  lemma ReportExact(status: Status, tasks: seq<Task>, nurses: seq<Nurse>, a: DVar -> real, b: Booking)
    ensures Outcome(status, tasks, nurses, a).Found? <==> status == Optimal || status == Feasible
    ensures Outcome(status, tasks, nurses, a).Found? ==>
              (b in Outcome(status, tasks, nurses, a).bookings <==>
                 a(Assign(b)) == 1.0 && exists c :: c in Cells(Instances(tasks), nurses, Slots()) && Key(c) == b)
  {
    var cells := Cells(Instances(tasks), nurses, Slots());
    DecodeMembers(a, cells);
    if a(Assign(b)) == 1.0 && exists c :: c in cells && Key(c) == b {
      var c :| c in cells && Key(c) == b;
      DecodeComplete(a, cells, c);
    }
  }

  /** Line 72 with no nurses: an instance can be done by nobody, so no
      assignment satisfies the model. */
  lemma NoNursesInfeasible(tasks: seq<Task>, a: DVar -> real)
    requires |Instances(tasks)| > 0
    ensures !Satisfies(a, Formulation(tasks, []).model)
  {
    var insts := Instances(tasks);
    CoverageIn(tasks, [], 0);
    assert InstCells(insts[0], [], Slots()) == [];
    assert !Holds(a, Coverage(insts[0], []));
  }

  /** Lines 116-118: the maximised objective is the weighted goal sum plus
      10 for every booking in a daytime slot. */
  lemma SolutionObjective(tasks: seq<Task>, nurses: seq<Nurse>, a: DVar -> real)
    requires Satisfies(a, Formulation(tasks, nurses).model)
    ensures var insts := Instances(tasks);
            var m := Formulation(tasks, nurses).model;
            var cells := Cells(insts, nurses, Slots());
            var day := Cells(insts, nurses, DaySlots());
            && m.sense == Maximize
            && Eval(m.objective, a) == Eval(GoalTerms(cells, cells), a) + 10.0 * |Decode(a, day)| as real
  {
    var insts := Instances(tasks);
    var cells := Cells(insts, nurses, Slots());
    var day := Cells(insts, nurses, DaySlots());
    DaySlotsMembership();
    CellsMembership(insts, nurses, DaySlots());
    assert forall k :: 0 <= k < |day| ==> day[k] in day;
    BinaryOnGrid(tasks, nurses, a, day);
    DayCount(a, day);
    EvalAppend(GoalTerms(cells, cells), DayTerms(day), a);
  }
}
