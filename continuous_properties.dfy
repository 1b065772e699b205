/** What the continuous-time model of backend/app.py means: facts about
    the variables it declares, and what any assignment satisfying its
    constraints says about the schedule. */
module ContinuousProperties {
  import opened LinearModel
  import opened Scheduling
  import opened Continuous

  // ---------------------------------------------------------------------
  // One emitted constraint pair at a time.
  // ---------------------------------------------------------------------

  /** a, except that variable v has value x. */
  function Override(a: CVar -> real, v: CVar, x: real): CVar -> real {
    u => if u == v then x else a(u)
  }

  predicate ExclusionHolds(a: CVar -> real, x: Instance, y: Instance) {
    Holds(a, ExclusionAfter(x, y)) && Holds(a, ExclusionBefore(x, y))
  }

  lemma ExclusionValues(a: CVar -> real, x: Instance, y: Instance)
    ensures ExclusionHolds(a, x, y) <==>
      && a(StartOf(x)) - a(StartOf(y)) + MaxTime * a(OrderOf(x, y)) >= HalfDurations(x, y)
      && a(StartOf(y)) - a(StartOf(x)) - MaxTime * a(OrderOf(x, y)) >= HalfDurations(x, y) - MaxTime
  {
    EvalThree(Term(1.0, StartOf(x)), Term(-1.0, StartOf(y)), Term(MaxTime, OrderOf(x, y)), a);
    EvalThree(Term(1.0, StartOf(y)), Term(-1.0, StartOf(x)), Term(-MaxTime, OrderOf(x, y)), a);
  }

  /** Soundness of the big-M encoding: with z in {0, 1}, the two
      inequalities force the half-duration separation. */
  lemma ExclusionSound(a: CVar -> real, x: Instance, y: Instance)
    requires ExclusionHolds(a, x, y)
    requires InDomain(a(OrderOf(x, y)), Boolean)
    ensures AbsReal(a(StartOf(x)) - a(StartOf(y))) >= HalfDurations(x, y)
  {
    ExclusionValues(a, x, y);
    BooleanValue(a(OrderOf(x, y)));
  }

  /** Exactly which start times the encoding admits: some z in {0, 1}
      satisfies both inequalities if and only if the separation is at
      least D and at most MAX_TIME - D, whatever the sign of the
      durations. Pairs further apart than MAX_TIME - D are cut off. */
  lemma ExclusionExact(a: CVar -> real, x: Instance, y: Instance)
    ensures var z := OrderOf(x, y);
            var d := AbsReal(a(StartOf(x)) - a(StartOf(y)));
            (ExclusionHolds(Override(a, z, 0.0), x, y) || ExclusionHolds(Override(a, z, 1.0), x, y))
            <==> HalfDurations(x, y) <= d <= MaxTime - HalfDurations(x, y)
  {
    var z := OrderOf(x, y);
    ExclusionValues(Override(a, z, 0.0), x, y);
    ExclusionValues(Override(a, z, 1.0), x, y);
  }

  /** The pair (y, x) emitted later with indicator 1 - z states the same
      as the pair (x, y) with indicator z. */
  lemma ExclusionSymmetric(a: CVar -> real, x: Instance, y: Instance)
    ensures ExclusionHolds(a, x, y) <==>
            ExclusionHolds(Override(a, OrderOf(y, x), 1.0 - a(OrderOf(x, y))), y, x)
  {
    var b := Override(a, OrderOf(y, x), 1.0 - a(OrderOf(x, y)));
    ExclusionValues(a, x, y);
    ExclusionValues(b, y, x);
    assert HalfDurations(y, x) == HalfDurations(x, y);
  }

  /** The two bounds put on a patient's gap variable by one pair say
      exactly that it lies at or below minus their distance. */
  lemma GapExact(a: CVar -> real, x: Instance, y: Instance)
    ensures Holds(a, GapForward(x, y)) && Holds(a, GapBackward(x, y)) <==>
            a(Gap(x.task.patientId)) <= -AbsReal(a(StartOf(x)) - a(StartOf(y)))
  {
    EvalThree(Term(1.0, Gap(x.task.patientId)), Term(-1.0, StartOf(x)), Term(1.0, StartOf(y)), a);
    EvalThree(Term(1.0, Gap(x.task.patientId)), Term(1.0, StartOf(x)), Term(-1.0, StartOf(y)), a);
  }

  // ---------------------------------------------------------------------
  // How the passes grow the model.
  // ---------------------------------------------------------------------

  lemma {:induction false} DeclareStartsFacts(m: Model<CVar>, insts: seq<Instance>)
    ensures DeclareStarts(m, insts).constraints == m.constraints
    ensures Extends(m, DeclareStarts(m, insts))
    ensures WellTyped(m) ==> WellTyped(DeclareStarts(m, insts))
    ensures forall v :: v in DeclareStarts(m, insts).domains <==>
              v in m.domains || exists i :: i in insts && v == StartOf(i)
  {
    if insts != [] {
      var front := insts[..|insts| - 1];
      DeclareStartsFacts(m, front);
      assert insts == front + [insts[|insts| - 1]];
    }
  }

  lemma {:induction false} ExclusionRowFacts(m: Model<CVar>, x: Instance, ys: seq<Instance>)
    ensures Extends(m, ExclusionRow(m, x, ys))
    ensures WellTyped(m) ==> WellTyped(ExclusionRow(m, x, ys))
    ensures forall v: CVar :: !v.Order? ==> (v in ExclusionRow(m, x, ys).domains <==> v in m.domains)
  {
    if ys != [] {
      var r := ExclusionRow(m, x, ys[..|ys| - 1]);
      ExclusionRowFacts(m, x, ys[..|ys| - 1]);
      assert Extends(r, ExclusionStep(r, x, ys[|ys| - 1]));
      ExtendsTrans(m, r, ExclusionStep(r, x, ys[|ys| - 1]));
    }
  }

  lemma {:induction false} ExclusionPassFacts(m: Model<CVar>, xs: seq<Instance>, ys: seq<Instance>)
    ensures Extends(m, ExclusionPass(m, xs, ys))
    ensures WellTyped(m) ==> WellTyped(ExclusionPass(m, xs, ys))
    ensures forall v: CVar :: !v.Order? ==> (v in ExclusionPass(m, xs, ys).domains <==> v in m.domains)
  {
    if xs != [] {
      var p := ExclusionPass(m, xs[..|xs| - 1], ys);
      ExclusionPassFacts(m, xs[..|xs| - 1], ys);
      ExclusionRowFacts(p, xs[|xs| - 1], ys);
      ExtendsTrans(m, p, ExclusionPass(m, xs, ys));
    }
  }

  lemma {:induction false} ExclusionRowHas(m: Model<CVar>, x: Instance, ys: seq<Instance>, j: nat)
    requires j < |ys| && Competing(x, ys[j])
    ensures ExclusionAfter(x, ys[j]) in ExclusionRow(m, x, ys).constraints
    ensures ExclusionBefore(x, ys[j]) in ExclusionRow(m, x, ys).constraints
    ensures OrderOf(x, ys[j]) in ExclusionRow(m, x, ys).domains
  {
    var front := ys[..|ys| - 1];
    var r := ExclusionRow(m, x, front);
    if j < |ys| - 1 {
      ExclusionRowHas(m, x, front, j);
      assert front[j] == ys[j];
      assert Extends(r, ExclusionStep(r, x, ys[|ys| - 1]));
      ExtendsKeeps(r, ExclusionRow(m, x, ys), ExclusionAfter(x, ys[j]));
      ExtendsKeeps(r, ExclusionRow(m, x, ys), ExclusionBefore(x, ys[j]));
    }
  }

  lemma {:induction false} ExclusionPassHas(m: Model<CVar>, xs: seq<Instance>, ys: seq<Instance>, i: nat, j: nat)
    requires i < |xs| && j < |ys| && Competing(xs[i], ys[j])
    ensures ExclusionAfter(xs[i], ys[j]) in ExclusionPass(m, xs, ys).constraints
    ensures ExclusionBefore(xs[i], ys[j]) in ExclusionPass(m, xs, ys).constraints
    ensures OrderOf(xs[i], ys[j]) in ExclusionPass(m, xs, ys).domains
  {
    var front := xs[..|xs| - 1];
    var p := ExclusionPass(m, front, ys);
    if i == |xs| - 1 {
      ExclusionRowHas(p, xs[i], ys, j);
    } else {
      ExclusionPassHas(m, front, ys, i, j);
      assert front[i] == xs[i];
      ExclusionRowFacts(p, xs[|xs| - 1], ys);
      ExtendsKeeps(p, ExclusionPass(m, xs, ys), ExclusionAfter(xs[i], ys[j]));
      ExtendsKeeps(p, ExclusionPass(m, xs, ys), ExclusionBefore(xs[i], ys[j]));
    }
  }

  lemma {:induction false} ChainPassFacts(m: Model<CVar>, insts: seq<Instance>)
    ensures Extends(m, ChainPass(m, insts))
    ensures ChainPass(m, insts).domains == m.domains
  {
    if insts != [] {
      var p := ChainPass(m, insts[..|insts| - 1]);
      ChainPassFacts(m, insts[..|insts| - 1]);
      assert Extends(p, ChainStep(p, insts[|insts| - 1]));
      ExtendsTrans(m, p, ChainPass(m, insts));
    }
  }

  lemma {:induction false} ChainPassHas(m: Model<CVar>, insts: seq<Instance>, i: nat)
    requires i < |insts| && insts[i].index >= 1
    ensures ChainLower(insts[i]) in ChainPass(m, insts).constraints
    ensures ChainUpper(insts[i]) in ChainPass(m, insts).constraints
  {
    var front := insts[..|insts| - 1];
    var p := ChainPass(m, front);
    if i < |insts| - 1 {
      ChainPassHas(m, front, i);
      assert front[i] == insts[i];
      assert Extends(p, ChainPass(m, insts));
      ExtendsKeeps(p, ChainPass(m, insts), ChainLower(insts[i]));
      ExtendsKeeps(p, ChainPass(m, insts), ChainUpper(insts[i]));
    }
  }

  /** The dictionary has one key per distinct patient id, each once. */
  lemma {:induction false} GapKeysFacts(patients: seq<Patient>)
    ensures forall p :: p in GapKeys(patients) <==> exists q :: q in patients && q.id == p
    ensures forall i, j :: 0 <= i < j < |GapKeys(patients)| ==> GapKeys(patients)[i] != GapKeys(patients)[j]
  {
    if patients != [] {
      var front := patients[..|patients| - 1];
      GapKeysFacts(front);
      assert patients == front + [patients[|patients| - 1]];
    }
  }

  lemma {:induction false} DeclareGapsFacts(m: Model<CVar>, patients: seq<Patient>)
    ensures DeclareGaps(m, patients).constraints == m.constraints
    ensures Extends(m, DeclareGaps(m, patients))
    ensures WellTyped(m) ==> WellTyped(DeclareGaps(m, patients))
    ensures forall v :: v in DeclareGaps(m, patients).domains <==>
              v in m.domains || (v.Gap? && exists q :: q in patients && q.id == v.patientId)
  {
    if patients != [] {
      var front, last := patients[..|patients| - 1], patients[|patients| - 1];
      DeclareGapsFacts(m, front);
      assert patients == front + [last];
      forall v: CVar | v.Gap? && exists q :: q in patients && q.id == v.patientId
        ensures v in DeclareGaps(m, patients).domains
      {
        var q :| q in patients && q.id == v.patientId;
        if q != last {
          assert q in front;
        }
      }
    }
  }

  lemma {:induction false} GapRowFacts(m: Model<CVar>, x: Instance, ys: seq<Instance>)
    ensures Extends(m, GapRow(m, x, ys))
    ensures GapRow(m, x, ys).domains == m.domains
  {
    if ys != [] {
      var r := GapRow(m, x, ys[..|ys| - 1]);
      GapRowFacts(m, x, ys[..|ys| - 1]);
      assert Extends(r, GapStep(r, x, ys[|ys| - 1]));
      ExtendsTrans(m, r, GapRow(m, x, ys));
    }
  }

  lemma {:induction false} GapPassFacts(m: Model<CVar>, xs: seq<Instance>, ys: seq<Instance>)
    ensures Extends(m, GapPass(m, xs, ys))
    ensures GapPass(m, xs, ys).domains == m.domains
  {
    if xs != [] {
      var p := GapPass(m, xs[..|xs| - 1], ys);
      GapPassFacts(m, xs[..|xs| - 1], ys);
      GapRowFacts(p, xs[|xs| - 1], ys);
      ExtendsTrans(m, p, GapPass(m, xs, ys));
    }
  }

  lemma {:induction false} GapRowHas(m: Model<CVar>, x: Instance, ys: seq<Instance>, j: nat)
    requires j < |ys| && SamePatient(x, ys[j])
    ensures GapForward(x, ys[j]) in GapRow(m, x, ys).constraints
    ensures GapBackward(x, ys[j]) in GapRow(m, x, ys).constraints
  {
    var front := ys[..|ys| - 1];
    var r := GapRow(m, x, front);
    if j < |ys| - 1 {
      GapRowHas(m, x, front, j);
      assert front[j] == ys[j];
      assert Extends(r, GapStep(r, x, ys[|ys| - 1]));
      ExtendsKeeps(r, GapRow(m, x, ys), GapForward(x, ys[j]));
      ExtendsKeeps(r, GapRow(m, x, ys), GapBackward(x, ys[j]));
    }
  }

  lemma {:induction false} GapPassHas(m: Model<CVar>, xs: seq<Instance>, ys: seq<Instance>, i: nat, j: nat)
    requires i < |xs| && j < |ys| && SamePatient(xs[i], ys[j])
    ensures GapForward(xs[i], ys[j]) in GapPass(m, xs, ys).constraints
    ensures GapBackward(xs[i], ys[j]) in GapPass(m, xs, ys).constraints
  {
    var front := xs[..|xs| - 1];
    var p := GapPass(m, front, ys);
    if i == |xs| - 1 {
      GapRowHas(p, xs[i], ys, j);
    } else {
      GapPassHas(m, front, ys, i, j);
      assert front[i] == xs[i];
      GapRowFacts(p, xs[|xs| - 1], ys);
      ExtendsKeeps(p, GapPass(m, xs, ys), GapForward(xs[i], ys[j]));
      ExtendsKeeps(p, GapPass(m, xs, ys), GapBackward(xs[i], ys[j]));
    }
  }

  /** No KeyError means every patient with a pair of instances has a gap variable. */
  lemma {:induction false} FirstMissingNone(xs: seq<Instance>, ys: seq<Instance>, keys: seq<int>)
    requires FirstMissing(xs, ys, keys) == None
    ensures forall i, j :: 0 <= i < |xs| && 0 <= j < |ys| && SamePatient(xs[i], ys[j]) ==>
              xs[i].task.patientId in keys
  {
    if xs != [] {
      FirstMissingNone(xs[1..], ys, keys);
      forall i, j | 0 <= i < |xs| && 0 <= j < |ys| && SamePatient(xs[i], ys[j])
        ensures xs[i].task.patientId in keys
      {
        if i > 0 {
          assert xs[1..][i - 1] == xs[i];
        }
      }
    }
  }

  /** The KeyError happens exactly when some patient id with two or more
      instances is not in the patient list. */
  lemma {:induction false} FirstMissingIff(xs: seq<Instance>, ys: seq<Instance>, keys: seq<int>)
    ensures FirstMissing(xs, ys, keys).Some? <==>
            exists i, j :: 0 <= i < |xs| && 0 <= j < |ys| && SamePatient(xs[i], ys[j]) &&
                           xs[i].task.patientId !in keys
    ensures FirstMissing(xs, ys, keys).Some? ==> FirstMissing(xs, ys, keys).value !in keys
  {
    if FirstMissing(xs, ys, keys).None? {
      FirstMissingNone(xs, ys, keys);
    } else if !RowMissing(xs[0], ys, keys) {
      FirstMissingIff(xs[1..], ys, keys);
      var i, j :| 0 <= i < |xs[1..]| && 0 <= j < |ys| && SamePatient(xs[1..][i], ys[j]) &&
                  xs[1..][i].task.patientId !in keys;
      assert xs[i + 1] == xs[1..][i];
    }
  }

  // ---------------------------------------------------------------------
  // The built model.
  // ---------------------------------------------------------------------

  /** The passes after the start variables, from any model m1: each
      stage survives into the result, the domains stay those of DomainOf,
      and no start variable is added or removed. */
  lemma PassesExtend(m1: Model<CVar>, insts: seq<Instance>, patients: seq<Patient>)
    ensures var m2 := ExclusionPass(m1, insts, insts);
            var m3 := ChainPass(m2, insts);
            var m4 := DeclareGaps(m3, patients);
            var m5 := GapPass(m4, insts, insts);
            var m := SetObjective(m5, GapKeys(patients));
            && Extends(m1, m) && Extends(m2, m) && Extends(m3, m) && Extends(m4, m) && Extends(m5, m)
            && (WellTyped(m1) ==> WellTyped(m))
            && (forall v: CVar :: v.Start? ==> (v in m.domains <==> v in m1.domains))
  {
    var m2 := ExclusionPass(m1, insts, insts);
    var m3 := ChainPass(m2, insts);
    var m4 := DeclareGaps(m3, patients);
    var m5 := GapPass(m4, insts, insts);
    var m := SetObjective(m5, GapKeys(patients));
    ExclusionPassFacts(m1, insts, insts);
    ChainPassFacts(m2, insts);
    DeclareGapsFacts(m3, patients);
    GapPassFacts(m4, insts, insts);
    assert Extends(m5, m);
    ExtendsTrans(m4, m5, m);
    ExtendsTrans(m3, m4, m);
    ExtendsTrans(m2, m3, m);
    ExtendsTrans(m1, m2, m);
  }

  /** A run without KeyError returns the passes applied in order. */
  lemma BuiltStages(tasks: seq<Task>, patients: seq<Patient>)
    requires Formulation(tasks, patients).Built?
    ensures var insts := Instances(tasks);
            var m1 := DeclareStarts(Empty(), insts);
            && FirstMissing(insts, insts, GapKeys(patients)) == None
            && Formulation(tasks, patients).model ==
               SetObjective(GapPass(DeclareGaps(ChainPass(ExclusionPass(m1, insts, insts), insts), patients), insts, insts),
                            GapKeys(patients))
            && WellTyped(m1)
  {
    DeclareStartsFacts(Empty(), Instances(tasks));
  }

  /** Each pass survives into the returned model. */
  lemma BuiltExtends(tasks: seq<Task>, patients: seq<Patient>)
    requires Formulation(tasks, patients).Built?
    ensures var insts := Instances(tasks);
            var m1 := DeclareStarts(Empty(), insts);
            var m2 := ExclusionPass(m1, insts, insts);
            var m3 := ChainPass(m2, insts);
            var m4 := DeclareGaps(m3, patients);
            var m := Formulation(tasks, patients).model;
            && FirstMissing(insts, insts, GapKeys(patients)) == None
            && Extends(m1, m) && Extends(m2, m) && Extends(m3, m) && Extends(m4, m)
            && Extends(GapPass(m4, insts, insts), m)
  {
    BuiltStages(tasks, patients);
    PassesExtend(DeclareStarts(Empty(), Instances(tasks)), Instances(tasks), patients);
  }

  /** Every variable of the returned model has the domain of its kind,
      and its start variables are those of the first pass. */
  lemma BuiltTyped(tasks: seq<Task>, patients: seq<Patient>)
    requires Formulation(tasks, patients).Built?
    ensures WellTyped(Formulation(tasks, patients).model)
    ensures forall v: CVar :: v.Start? ==>
              (v in Formulation(tasks, patients).model.domains <==> v in DeclareStarts(Empty(), Instances(tasks)).domains)
  {
    BuiltStages(tasks, patients);
    PassesExtend(DeclareStarts(Empty(), Instances(tasks)), Instances(tasks), patients);
  }

  /** Line 95: the handler stops with a KeyError exactly when two
      distinct instances share a patient id that no listed patient has,
      and the missing id it names is such an id. */
  lemma MissingPatientIff(tasks: seq<Task>, patients: seq<Patient>)
    ensures var insts := Instances(tasks);
            Formulation(tasks, patients).MissingPatient? <==>
              exists i, j :: 0 <= i < |insts| && 0 <= j < |insts| && SamePatient(insts[i], insts[j]) &&
                             forall q :: q in patients ==> q.id != insts[i].task.patientId
    ensures Formulation(tasks, patients).MissingPatient? ==>
              forall q :: q in patients ==> q.id != Formulation(tasks, patients).patientId
  {
    var insts := Instances(tasks);
    var keys := GapKeys(patients);
    FirstMissingIff(insts, insts, keys);
    GapKeysFacts(patients);
    if FirstMissing(insts, insts, keys).Some? {
      var i, j :| 0 <= i < |insts| && 0 <= j < |insts| && SamePatient(insts[i], insts[j]) &&
                  insts[i].task.patientId !in keys;
      assert forall q :: q in patients ==> q.id != insts[i].task.patientId;
    } else {
      FirstMissingNone(insts, insts, keys);
      forall i, j | 0 <= i < |insts| && 0 <= j < |insts| && SamePatient(insts[i], insts[j])
        ensures exists q :: q in patients && q.id == insts[i].task.patientId
      {
        assert insts[i].task.patientId in keys;
      }
    }
  }

  /** Lines 58-61: exactly one start variable per (task id, instance),
      each with domain [0, MAX_TIME]. */
  lemma StartVariables(tasks: seq<Task>, patients: seq<Patient>)
    requires Formulation(tasks, patients).Built?
    ensures var m := Formulation(tasks, patients).model;
            && (forall tid, k :: Start(tid, k) in m.domains <==> HasInstance(tasks, tid, k))
            && (forall tid, k :: Start(tid, k) in m.domains ==> m.domains[Start(tid, k)] == Interval(0.0, MaxTime))
  {
    BuiltTyped(tasks, patients);
    DeclareStartsFacts(Empty(), Instances(tasks));
    forall tid, k
      ensures Start(tid, k) in Formulation(tasks, patients).model.domains <==> HasInstance(tasks, tid, k)
    {
      HasInstanceIff(tasks, tid, k);
    }
  }

  lemma ExclusiveAt(m1: Model<CVar>, m: Model<CVar>, insts: seq<Instance>, i: nat, j: nat, a: CVar -> real)
    requires Extends(ExclusionPass(m1, insts, insts), m) && Satisfies(a, m) && WellTyped(m)
    requires i < |insts| && j < |insts| && Competing(insts[i], insts[j])
    ensures AbsReal(a(StartOf(insts[i])) - a(StartOf(insts[j]))) >= HalfDurations(insts[i], insts[j])
  {
    var m2 := ExclusionPass(m1, insts, insts);
    ExclusionPassHas(m1, insts, insts, i, j);
    ExtendsKeeps(m2, m, ExclusionAfter(insts[i], insts[j]));
    ExtendsKeeps(m2, m, ExclusionBefore(insts[i], insts[j]));
    SatisfiedConstraint(a, m, ExclusionAfter(insts[i], insts[j]));
    SatisfiedConstraint(a, m, ExclusionBefore(insts[i], insts[j]));
    assert OrderOf(insts[i], insts[j]) in m.domains;
    ExclusionSound(a, insts[i], insts[j]);
  }

  /** Lines 66-74 in any satisfying assignment: two instances of one
      activity type start at least half of each one's duration apart. */
  lemma SolutionExclusive(tasks: seq<Task>, patients: seq<Patient>, a: CVar -> real, i: nat, j: nat)
    requires Formulation(tasks, patients).Built?
    requires Satisfies(a, Formulation(tasks, patients).model)
    requires i < |Instances(tasks)| && j < |Instances(tasks)| && Competing(Instances(tasks)[i], Instances(tasks)[j])
    ensures AbsReal(a(StartOf(Instances(tasks)[i])) - a(StartOf(Instances(tasks)[j])))
            >= HalfDurations(Instances(tasks)[i], Instances(tasks)[j])
  {
    var insts := Instances(tasks);
    BuiltExtends(tasks, patients);
    BuiltTyped(tasks, patients);
    ExclusiveAt(DeclareStarts(Empty(), insts), Formulation(tasks, patients).model, insts, i, j, a);
  }

  lemma ChainedAt(m2: Model<CVar>, m: Model<CVar>, insts: seq<Instance>, i: nat, a: CVar -> real)
    requires Extends(ChainPass(m2, insts), m) && Satisfies(a, m)
    requires i < |insts| && insts[i].index >= 1
    ensures insts[i].task.minimumSeparation as real
            <= a(StartOf(insts[i])) - a(Start(insts[i].task.id, insts[i].index - 1))
            <= insts[i].task.maximumSeparation as real
  {
    var inst := insts[i];
    ChainPassHas(m2, insts, i);
    ExtendsKeeps(ChainPass(m2, insts), m, ChainLower(inst));
    ExtendsKeeps(ChainPass(m2, insts), m, ChainUpper(inst));
    SatisfiedConstraint(a, m, ChainLower(inst));
    SatisfiedConstraint(a, m, ChainUpper(inst));
    EvalTwo(Term(1.0, StartOf(inst)), Term(-1.0, Start(inst.task.id, inst.index - 1)), a);
  }

  /** Lines 78-81 in any satisfying assignment: consecutive instances are
      between minimum_separation and maximum_separation apart. */
  lemma SolutionChained(tasks: seq<Task>, patients: seq<Patient>, a: CVar -> real, t: Task, k: nat)
    requires Formulation(tasks, patients).Built?
    requires Satisfies(a, Formulation(tasks, patients).model)
    requires t in tasks && 1 <= k < Times(t)
    ensures t.minimumSeparation as real <= a(Start(t.id, k)) - a(Start(t.id, k - 1)) <= t.maximumSeparation as real
  {
    var insts := Instances(tasks);
    BuiltExtends(tasks, patients);
    InstancesMembership(tasks);
    assert Instance(t, k) in insts;
    var i :| 0 <= i < |insts| && insts[i] == Instance(t, k);
    ChainedAt(ExclusionPass(DeclareStarts(Empty(), insts), insts, insts), Formulation(tasks, patients).model, insts, i, a);
  }

  /** Chaining the separations: instance k starts between k times the
      minimum and k times the maximum separation after instance 0. */
  lemma {:induction false} SolutionSpread(tasks: seq<Task>, patients: seq<Patient>, a: CVar -> real, t: Task, k: nat)
    requires Formulation(tasks, patients).Built?
    requires Satisfies(a, Formulation(tasks, patients).model)
    requires t in tasks && k < Times(t)
    ensures (k as real) * (t.minimumSeparation as real) <= a(Start(t.id, k)) - a(Start(t.id, 0))
    ensures a(Start(t.id, k)) - a(Start(t.id, 0)) <= (k as real) * (t.maximumSeparation as real)
  {
    if k > 0 {
      SolutionSpread(tasks, patients, a, t, k - 1);
      SolutionChained(tasks, patients, a, t, k);
      assert (k as real) * (t.minimumSeparation as real)
          == ((k - 1) as real) * (t.minimumSeparation as real) + t.minimumSeparation as real;
      assert (k as real) * (t.maximumSeparation as real)
          == ((k - 1) as real) * (t.maximumSeparation as real) + t.maximumSeparation as real;
    }
  }

  lemma GapDeclared(m: Model<CVar>, patients: seq<Patient>, p: int)
    requires p in GapKeys(patients)
    ensures Gap(p) in DeclareGaps(m, patients).domains
  {
  }

  lemma GapAt(m4: Model<CVar>, m: Model<CVar>, insts: seq<Instance>, i: nat, j: nat, a: CVar -> real)
    requires Extends(GapPass(m4, insts, insts), m) && Satisfies(a, m) && WellTyped(m)
    requires i < |insts| && j < |insts| && SamePatient(insts[i], insts[j])
    requires Gap(insts[i].task.patientId) in m.domains
    ensures -MaxTime <= a(Gap(insts[i].task.patientId)) <= -AbsReal(a(StartOf(insts[i])) - a(StartOf(insts[j])))
  {
    GapPassHas(m4, insts, insts, i, j);
    ExtendsKeeps(GapPass(m4, insts, insts), m, GapForward(insts[i], insts[j]));
    ExtendsKeeps(GapPass(m4, insts, insts), m, GapBackward(insts[i], insts[j]));
    SatisfiedConstraint(a, m, GapForward(insts[i], insts[j]));
    SatisfiedConstraint(a, m, GapBackward(insts[i], insts[j]));
    GapExact(a, insts[i], insts[j]);
  }

  /** Lines 90-96 in any satisfying assignment: each patient's gap
      variable is at most minus the distance of every pair of that
      patient's instances, and at least -MAX_TIME. */
  lemma SolutionGaps(tasks: seq<Task>, patients: seq<Patient>, a: CVar -> real, i: nat, j: nat)
    requires Formulation(tasks, patients).Built?
    requires Satisfies(a, Formulation(tasks, patients).model)
    requires i < |Instances(tasks)| && j < |Instances(tasks)| && SamePatient(Instances(tasks)[i], Instances(tasks)[j])
    ensures -MaxTime <= a(Gap(Instances(tasks)[i].task.patientId))
            <= -AbsReal(a(StartOf(Instances(tasks)[i])) - a(StartOf(Instances(tasks)[j])))
  {
    var insts := Instances(tasks);
    var m3 := ChainPass(ExclusionPass(DeclareStarts(Empty(), insts), insts, insts), insts);
    BuiltExtends(tasks, patients);
    BuiltTyped(tasks, patients);
    FirstMissingNone(insts, insts, GapKeys(patients));
    GapDeclared(m3, patients, insts[i].task.patientId);
    GapAt(DeclareGaps(m3, patients), Formulation(tasks, patients).model, insts, i, j, a);
  }

  /** The sum of the gap variables' values. */
  function GapTotal(a: CVar -> real, ids: seq<int>): real {
    if ids == [] then 0.0 else a(Gap(ids[0])) + GapTotal(a, ids[1..])
  }

  lemma {:induction false} EvalGapTerms(a: CVar -> real, ids: seq<int>)
    ensures Eval(GapTerms(ids), a) == GapTotal(a, ids)
  {
    if ids != [] {
      EvalGapTerms(a, ids[1..]);
      assert GapTerms(ids) == [Term(1.0, Gap(ids[0]))] + GapTerms(ids[1..]);
      EvalAppend([Term(1.0, Gap(ids[0]))], GapTerms(ids[1..]), a);
      EvalOne(Term(1.0, Gap(ids[0])), a);
    }
  }

  /** Lines 100-102: the minimised objective is the negated sum of the
      per-patient gap variables. */
  lemma SolutionObjective(tasks: seq<Task>, patients: seq<Patient>, a: CVar -> real)
    requires Formulation(tasks, patients).Built?
    requires Satisfies(a, Formulation(tasks, patients).model)
    ensures var m := Formulation(tasks, patients).model;
            && m.sense == Minimize && m.objective == [Term(1.0, Objective)]
            && a(Objective) == -GapTotal(a, GapKeys(patients))
  {
    var keys := GapKeys(patients);
    BuiltStages(tasks, patients);
    var m := Formulation(tasks, patients).model;
    assert ObjectiveDefinition(keys) in m.constraints;
    EvalAppend([Term(1.0, Objective)], GapTerms(keys), a);
    EvalOne(Term(1.0, Objective), a);
    EvalGapTerms(a, keys);
  }

  /** Lines 113-120: one event per instance, in task-list then instance
      order, Σ number_of_times in all; with unique task ids no two share
      a (task_id, task_instance_id). */
  lemma {:induction false} EventsShape(tasks: seq<Task>, a: CVar -> real)
    ensures var insts := Instances(tasks);
            var es := Events(insts, a);
            && |es| == |insts| == TotalTimes(tasks)
            && (forall i :: 0 <= i < |es| ==> es[i] == EventOf(insts[i], a))
            && (UniqueIds(tasks) ==> forall i, j :: 0 <= i < j < |es| ==>
                  (es[i].taskId, es[i].taskInstanceId) != (es[j].taskId, es[j].taskInstanceId))
  {
    var insts := Instances(tasks);
    EventsAt(insts, a);
    InstancesLength(tasks);
    if UniqueIds(tasks) {
      InstanceKeysDistinct(tasks);
    }
  }

  lemma {:induction false} EventsAt(insts: seq<Instance>, a: CVar -> real)
    ensures |Events(insts, a)| == |insts|
    ensures forall i :: 0 <= i < |insts| ==> Events(insts, a)[i] == EventOf(insts[i], a)
  {
    if insts != [] {
      EventsAt(insts[..|insts| - 1], a);
    }
  }
}
