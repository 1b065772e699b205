/** The request payload shared by both formulations: tasks and their
    derived instances (one per repetition), in the order the schedule
    handlers visit them. */
module Scheduling {

  /** The length of the scheduled day, 24 hours * 60 minutes/hour. */
  const MAX_TIME: int := 24 * 60

  /** One entry of the payload's task list. */
  datatype Task = Task(id: int, patientId: int, numberOfTimes: int, duration: int,
                       activityType: string, minimumSeparation: int,
                       maximumSeparation: int, earliestStartTime: int)

  /** The number of instances of a task: its repetition count, or none when that is negative. */
  function Times(t: Task): nat {
    if t.numberOfTimes < 0 then 0 else t.numberOfTimes
  }

  /** One occurrence of a task: instance `index` of `task`. */
  datatype Instance = Instance(task: Task, index: nat)

  function Abs(x: int): nat {
    if x < 0 then -x else x
  }

  /** Instances 0 .. n-1 of task t, in index order. */
  function Repeats(t: Task, n: nat): seq<Instance> {
    if n == 0 then [] else Repeats(t, n - 1) + [Instance(t, n - 1)]
  }

  /** All instances, task by task and within a task by index. */
  function Instances(tasks: seq<Task>): seq<Instance> {
    if tasks == [] then []
    else Instances(tasks[..|tasks| - 1]) + Repeats(tasks[|tasks| - 1], Times(tasks[|tasks| - 1]))
  }

  /** The sum of number_of_times over the task list. */
  function TotalTimes(tasks: seq<Task>): nat {
    if tasks == [] then 0 else TotalTimes(tasks[..|tasks| - 1]) + Times(tasks[|tasks| - 1])
  }

  /** Some task of the list has id tid and an instance k. */
  predicate HasInstance(tasks: seq<Task>, tid: int, k: int) {
    exists t :: t in tasks && t.id == tid && 0 <= k < Times(t)
  }

  predicate UniqueIds(tasks: seq<Task>) {
    forall i, j :: 0 <= i < j < |tasks| ==> tasks[i].id != tasks[j].id
  }

  /** The dictionary key (task id, instance) of an instance. */
  function KeyOf(i: Instance): (int, int) {
    (i.task.id, i.index)
  }

  lemma {:induction false} RepeatsShape(t: Task, n: nat)
    ensures |Repeats(t, n)| == n
    ensures forall k :: 0 <= k < n ==> Repeats(t, n)[k] == Instance(t, k)
  {
    if n > 0 {
      RepeatsShape(t, n - 1);
    }
  }

  lemma {:induction false} InstancesLength(tasks: seq<Task>)
    ensures |Instances(tasks)| == TotalTimes(tasks)
  {
    if tasks != [] {
      InstancesLength(tasks[..|tasks| - 1]);
      RepeatsShape(tasks[|tasks| - 1], Times(tasks[|tasks| - 1]));
    }
  }

  /** Every instance of every task is visited, and nothing else. */
  lemma {:induction false} InstancesMembership(tasks: seq<Task>)
    ensures forall i: Instance :: i in Instances(tasks) <==> i.task in tasks && i.index < Times(i.task)
  {
    if tasks != [] {
      var front, last := tasks[..|tasks| - 1], tasks[|tasks| - 1];
      InstancesMembership(front);
      RepeatsShape(last, Times(last));
      assert tasks == front + [last];
      forall i: Instance | i.task in tasks && i.index < Times(i.task)
        ensures i in Instances(tasks)
      {
        if i.task == last {
          assert Repeats(last, Times(last))[i.index] == i;
        } else {
          assert i.task in front;
        }
      }
    }
  }

  lemma HasInstanceIff(tasks: seq<Task>, tid: int, k: int)
    ensures HasInstance(tasks, tid, k) <==> exists i :: i in Instances(tasks) && KeyOf(i) == (tid, k)
  {
    InstancesMembership(tasks);
    if HasInstance(tasks, tid, k) {
      var t :| t in tasks && t.id == tid && 0 <= k < Times(t);
      assert Instance(t, k) in Instances(tasks);
    }
  }

  /** With unique task ids, no two visited instances share a key. */
  lemma {:induction false} InstanceKeysDistinct(tasks: seq<Task>)
    requires UniqueIds(tasks)
    ensures forall i, j :: 0 <= i < j < |Instances(tasks)| ==>
              KeyOf(Instances(tasks)[i]) != KeyOf(Instances(tasks)[j])
  {
    if tasks != [] {
      var front, last := tasks[..|tasks| - 1], tasks[|tasks| - 1];
      var p, r := Instances(front), Repeats(last, Times(last));
      InstanceKeysDistinct(front);
      InstancesMembership(front);
      RepeatsShape(last, Times(last));
      var all := Instances(tasks);
      assert all == p + r;
      forall i, j | 0 <= i < j < |all|
        ensures KeyOf(all[i]) != KeyOf(all[j])
      {
        if j < |p| {
          assert all[i] == p[i] && all[j] == p[j];
        } else if i >= |p| {
          assert all[i] == r[i - |p|] && all[j] == r[j - |p|];
        } else {
          assert all[i] == p[i] && p[i] in p;
          var t := p[i].task;
          assert t in front;
          var x :| 0 <= x < |front| && front[x] == t;
          assert tasks[x] == t && tasks[|tasks| - 1] == last;
          assert all[j] == r[j - |p|];
        }
      }
    }
  }
}
