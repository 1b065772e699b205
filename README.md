# Nurse scheduling formulators in Dafny

This project models the two `/schedule` handlers of the nurse-scheduling
backend. Each handler turns the posted tasks (and its nurses or patients)
into an optimisation model. That model has decision variables with
domains, linear constraints, "goal implies both" constraints and an
objective. After the solver answers, the handler reads the solution back.

- `backend/app.py` builds a **continuous** model for a MILP solver. It has:
  - one start-time variable per task instance, in [0, 1440];
  - big-M exclusivity between instances of the same activity type;
  - a minimum/maximum separation chain between consecutive instances;
  - a per-patient gap variable, bounded above by minus the distance of every pair of that patient's instances;
  - an objective variable, equal to the negated sum of the gaps, which is minimised.

  It then returns one event per instance.
- `backend/oldAppBoolean.py` builds a **discrete** CP-SAT model. It has:
  - one 0/1 variable per (task instance, nurse, 20-minute slot);
  - variables fixed to 0 before a task's earliest start time;
  - exactly-once coverage of every instance;
  - at most one instance per nurse and slot;
  - a goal boolean for every pair of cells whose (task, instance, slot) differ, with tiered weights;
  - minimum-separation exclusions;
  - a daytime bonus, in a maximised objective.

  It then reports the booked cells when the solver status is OPTIMAL or FEASIBLE.

The solver is not modelled. A model is a value: `LinearModel.Model` holds
a domain map keyed by the handler's own dictionary keys, a constraint
sequence, a sense and objective terms. `Satisfies(a, m)` says that an
arbitrary assignment `a` respects every domain and every constraint. The
theorems are of the form "every assignment that satisfies the emitted
model has this schedule-level property": coverage, capacity, separation,
non-overlap and per-patient gap.

Layout:

- `linear_model.dfy`: domains, linear expressions, constraints, models, satisfaction.
- `scheduling.dfy`: tasks and their instances in the handlers' loop order.
- `continuous.dfy` and `continuous_properties.dfy`: the `app.py` handler and what its model means.
- `discrete.dfy` and `discrete_properties.dfy`: the `oldAppBoolean.py` handler and what its model means.

Each handler pass is an imperative method with the handler's own loops.
Each method is proved equal to a fold function that visits the same
sequence in the same order, for example `AddExclusivity` and
`ExclusionPass`. The nested `for task: for task_instance [: for nurse: for
time]` loops run over the flattened sequences `Instances(tasks)` and
`Cells(insts, nurses, slots)`, which list the same items in the same
order. The properties are lemmas about the fold functions.

All arithmetic is exact. Times, durations and coefficients are `real` or
`int`; a CP-SAT boolean is a 0/1 `real`; `duration/2` is exact division.

## Model

| member | source | states |
|---|---|---|
| Scheduling.InstancesMembership | backend/app.py:59-60 | the instance loops visit exactly the pairs (task of the list, index below its number_of_times) |
| Scheduling.InstancesLength | backend/app.py:59-60 | the number of visited instances is the sum of number_of_times, a negative count giving none |
| Scheduling.HasInstanceIff | backend/app.py:59-61 | a key (task id, k) is visited exactly when some listed task with that id has an instance k |
| Scheduling.InstanceKeysDistinct | backend/app.py:58-61 | with unique task ids, no two visited instances have the same dictionary key |
| Continuous.AddStartVariables | backend/app.py:58-61 | the loop declares the start variables of `DeclareStarts`, in loop order |
| Continuous.AddExclusivity | backend/app.py:66-74 | the loops emit the order variable and both big-M inequalities for every competing ordered pair, as `ExclusionPass` |
| Continuous.AddSeparationChain | backend/app.py:78-81 | the loop emits the lower and upper separation bound for every instance after the first, as `ChainPass` |
| Continuous.AddGapVariables | backend/app.py:85-88 | one gap variable per listed patient; the returned keys are the dictionary's keys in insertion order |
| Continuous.AddGapBounds | backend/app.py:90-96 | both gap bounds for every same-patient pair, or the KeyError of line 95 naming the first patient id without a gap variable |
| Continuous.Formulate | backend/app.py:53-102 | the handler's model building equals `Formulation`: the passes in order, then the objective, or the KeyError |
| Continuous.ExtractEvents | backend/app.py:113-120 | the events are `Events` over the visited instances with the solved start times |
| ContinuousProperties.StartVariables | backend/app.py:58-61 | the built model has a start variable for (task id, k) exactly when that instance exists, each with domain [0, MAX_TIME] |
| ContinuousProperties.BuiltTyped | backend/app.py:53-102 | every variable of the built model has the domain of its kind: start [0, 1440], order {0, 1}, gap [-1440, 1440], objective unbounded |
| ContinuousProperties.ExclusionSound | backend/app.py:70-73 | both big-M inequalities with z in {0, 1} force the two start times at least d1/2 + d2/2 apart |
| ContinuousProperties.ExclusionExact | backend/app.py:70-73 | some z in {0, 1} satisfies both inequalities if and only if the distance D = d1/2 + d2/2 satisfies D <= distance <= MAX_TIME - D, for durations of any sign |
| ContinuousProperties.ExclusionSymmetric | backend/app.py:66-74 | the pair emitted as (B, A) with indicator 1 - z states exactly what the pair (A, B) with indicator z states |
| ContinuousProperties.SolutionExclusive | backend/app.py:66-74 | in every satisfying assignment, two distinct instances of one activity type start at least half of each one's duration apart |
| ContinuousProperties.SolutionChained | backend/app.py:78-81 | in every satisfying assignment, instance k starts between minimum_separation and maximum_separation after instance k-1 |
| ContinuousProperties.SolutionSpread | backend/app.py:78-81 | in every satisfying assignment, instance k starts between k times the minimum and k times the maximum separation after instance 0 |
| ContinuousProperties.GapKeysFacts | backend/app.py:85-88 | the gap dictionary has exactly the listed patient ids as keys, each once |
| ContinuousProperties.GapExact | backend/app.py:95-96 | the two gap bounds of one pair hold exactly when the gap value is at most minus the pair's distance |
| ContinuousProperties.SolutionGaps | backend/app.py:87-96 | in every satisfying assignment, a patient's gap lies in [-MAX_TIME, -distance] for every pair of that patient's distinct instances |
| ContinuousProperties.FirstMissingIff | backend/app.py:90-96 | the gap loop fails exactly when some same-patient pair has a patient id with no gap variable, and the id it reports is one |
| ContinuousProperties.MissingPatientIff | backend/app.py:85-96 | the handler stops with a KeyError exactly when two distinct instances share a patient id that no listed patient has |
| ContinuousProperties.SolutionObjective | backend/app.py:100-102 | the model minimises the objective variable, which in every satisfying assignment equals minus the sum of the gap values |
| ContinuousProperties.EventsShape | backend/app.py:113-120 | one event per instance, in task then instance order, sum of number_of_times in all; with unique ids no two events share a key |
| Discrete.AddAssignments | backend/oldAppBoolean.py:60-67 | the loops declare a 0/1 variable per cell and fix it to 0 before the earliest start, as `GridPass` |
| Discrete.AddCoverage | backend/oldAppBoolean.py:70-72 | one "sum over nurses and slots == 1" per instance, as `CoveragePass` |
| Discrete.AddCapacity | backend/oldAppBoolean.py:75-77 | one "sum over instances <= 1" per nurse and slot, as `CapacityPass` |
| Discrete.AddGoal | backend/oldAppBoolean.py:94-112 | one pair's goal variable, its weight after the three overwrites, its implication and its separation exclusion, as `GoalStep` |
| Discrete.AddGoals | backend/oldAppBoolean.py:86-112 | the eight nested loops over ordered pairs of cells build `GoalPass` |
| Discrete.Formulate | backend/oldAppBoolean.py:52-118 | the handler's model building equals `Formulation`, including the goal weight dictionary and the maximised objective |
| Discrete.ReportSolution | backend/oldAppBoolean.py:121-132 | the report is `Outcome`: the booked cells in loop order for OPTIMAL or FEASIBLE, otherwise no solution |
| DiscreteProperties.SlotsMembership | backend/oldAppBoolean.py:64 | the grid has 72 slots, slot k is 20k, and a time is a slot exactly when it is a multiple of 20 in [0, 1440) |
| DiscreteProperties.DaySlotsMembership | backend/oldAppBoolean.py:118 | the bonus slots are the multiples of 20 in [420, 1260), all of them grid slots |
| DiscreteProperties.CellsMembership | backend/oldAppBoolean.py:61-64 | the cell loops visit exactly the (instance, listed nurse, slot) triples |
| DiscreteProperties.AssignKeys | backend/oldAppBoolean.py:61-65 | a cell variable exists exactly for an existing (task id, instance), a listed nurse id and a slot |
| DiscreteProperties.FixedKeys | backend/oldAppBoolean.py:66-67 | a variable is fixed to 0 exactly when it belongs to a cell whose slot is before its task's earliest start; no other pass emits such an equation |
| DiscreteProperties.StagesTyped | backend/oldAppBoolean.py:60-107 | every variable of the model is 0/1, and the weight dictionary has a key exactly for each goal variable, with its tier's weight |
| DiscreteProperties.GoalKeys | backend/oldAppBoolean.py:94-95 | a goal variable exists exactly for two cell variables whose (task id, instance, slot) differ |
| DiscreteProperties.CoefficientKeys | backend/oldAppBoolean.py:98-107 | the weight dictionary's keys are exactly the goal variables, each weighted by its slots' tier |
| DiscreteProperties.CoefficientTiers | backend/oldAppBoolean.py:98-107 | the weight is 40 when the slots are at most 40 minutes apart and 0 otherwise; the 80 of line 103 never survives; the weight is symmetric |
| DiscreteProperties.ObjectiveLookups | backend/oldAppBoolean.py:116 | every term of the objective's goal sum is a declared goal variable times its dictionary weight |
| DiscreteProperties.ObjectiveComplete | backend/oldAppBoolean.py:95-116 | conversely, every declared goal variable has a dictionary weight, and that weighted term is in the objective's goal sum |
| DiscreteProperties.SolutionRespectsEarliest | backend/oldAppBoolean.py:66-67 | in every satisfying assignment, a cell before its task's earliest start time is 0 |
| DiscreteProperties.CellsBinary | backend/oldAppBoolean.py:65 | in every satisfying assignment, every cell variable on the grid is 0 or 1 |
| DiscreteProperties.SolutionCoverage | backend/oldAppBoolean.py:70-72 | in every satisfying assignment, each instance has exactly one (nurse, slot) set to 1 |
| DiscreteProperties.UnitCount | backend/oldAppBoolean.py:72 | for 0/1 values, the sum of cell variables counts the cells set to 1 |
| DiscreteProperties.SolutionNurseFreeAt | backend/oldAppBoolean.py:75-77 | in every satisfying assignment, no nurse and slot has two instances set to 1 |
| DiscreteProperties.SolutionNurseFree | backend/oldAppBoolean.py:75-77 | two bookings in the report with the same nurse are at different times |
| DiscreteProperties.SolutionSeparatedAt | backend/oldAppBoolean.py:109-112 | two cells of distinct instances of one task less than its minimum separation apart are never both 1, whatever their nurses |
| DiscreteProperties.SolutionSeparated | backend/oldAppBoolean.py:109-112 | the reported slots of two distinct instances of one task are at least its minimum separation apart |
| DiscreteProperties.SolutionGoal | backend/oldAppBoolean.py:95-96 | in every satisfying assignment, a goal variable is 0 or 1, and when it is 1 both of its cells are 1 |
| DiscreteProperties.NoNursesInfeasible | backend/oldAppBoolean.py:70-72 | with no nurses and at least one instance, no assignment satisfies the model |
| DiscreteProperties.SolutionObjective | backend/oldAppBoolean.py:116-118 | the model maximises the weighted goal sum plus 10 for every cell set to 1 in a daytime slot |
| DiscreteProperties.DayCount | backend/oldAppBoolean.py:118 | for 0/1 values, the daytime bonus is 10 times the number of daytime cells set to 1 |
| DiscreteProperties.SolutionSchedule | backend/oldAppBoolean.py:122-130 | in every satisfying assignment, the report has one booking per instance, in instance order, by a listed nurse in a slot no earlier than the earliest start |
| DiscreteProperties.DecodeMembers | backend/oldAppBoolean.py:125-130 | only keys of visited cells whose value is 1 are reported |
| DiscreteProperties.DecodeComplete | backend/oldAppBoolean.py:125-130 | every visited cell whose value is 1 is reported |
| DiscreteProperties.ReportExact | backend/oldAppBoolean.py:121-132 | a report exists exactly for OPTIMAL and FEASIBLE, and it lists exactly the keys of grid cells whose value is 1 |

## Left out

- HTTP and JSON plumbing is not modelled: the Flask app, the routes, `get_json` and `app.run`. The handlers' inputs are Dafny parameters.
- The solver's search is not modelled: SCIP, `CpSolver.Solve` and the returned solution values. The solution is an arbitrary assignment, and the CP-SAT status is a parameter of `ReportSolution`.
- Printing is not modelled: the payload, "Model set up", the debug support variables (`backend/app.py:109-110`), the events list and the objective values.
- The lookup `per_person_closest_pairs[0]` at `backend/app.py:125` is not modelled. It only feeds a print, but it raises a KeyError after solving when no patient has id 0.
- The string 'Hello Scheduler!' that `backend/oldAppBoolean.py:133` returns is not modelled. The printed booking lines are modelled as the `Report` value instead.
- Floating point is not modelled: `float('inf')` bounds and `solution_value()` floats. Values are exact reals; an unbounded variable has no bound at all.
- A task with a repeated id (or a nurse with a repeated id) creates, in the source, a new solver variable under an existing dictionary key. Constraints emitted before then keep the replaced variable. The model identifies a variable with its key, so it does not separate the two. `InstanceKeysDistinct` and `EventsShape` state what holds with unique task ids.
- Input validation is absent in the source and in the model. A negative `number_of_times` yields no instances, like Python's `range`. Negative durations are accepted too; no lemma of the model needs them to be non-negative.
- Fields the handlers never read are left out: the payload's names, `already_completed_tasks`, `TOTAL_ACTIVITY_TYPES` and the unused patient list of the discrete handler.
- `backend/app.py` ignores `earliest_start_time` and the solver's status, and so does the continuous model.
- The big-M pair at `backend/app.py:72-73` also rules out two same-activity instances more than MAX_TIME - D apart, which the start domain [0, 1440] allows. The lemma `ExclusionExact` states this boundary exactly. The model keeps the encoding as written.
- The gap bounds at `backend/app.py:94-96` hold for every pair of a patient's distinct instances, so the gap variable lies at or below minus the distance of the patient's farthest pair (`SolutionGaps`). Minimising the negated sum of the gaps therefore pushes each gap up to minus that largest distance. The comments at `backend/app.py:84` and `:99` speak of the two closest tasks instead. The model follows the code.
- The daytime bonus comment says 6am to 10pm, but the code sums over the slots 7:00 to 21:00 (`range(7*60, 21*60, 20)`). The model follows the code.
- The solver's cost of the 8-deep pair enumeration is not modelled, only which pairs are emitted.
