/** Finding the Claude session of a terminal (`find_claude`, src-tauri/src/context.rs): a
    breadth-first search of the processes under its shell, at most four levels down. */
module FindClaude {
  import opened Basics

  type Pid = nat

  const MAX_DEPTH: nat := 4

  /** Each process's children, as the system lists them: a parent's number can be a
      newer process's, so nothing says that this is a tree. */
  type Children = map<Pid, seq<Pid>>

  predicate IsChild(children: Children, parent: Pid, child: Pid) {
    parent in children && child in children[parent]
  }

  /** Whether `pid` can be reached from `shell` in exactly `steps`. */
  ghost predicate Below(children: Children, shell: Pid, pid: Pid, steps: nat)
    decreases steps
  {
    if steps == 0 then pid == shell
    else exists parent :: Below(children, shell, parent, steps - 1) && IsChild(children, parent, pid)
  }

  /** A process to be found. */
  predicate Wanted(claude: set<Pid>, shell: Pid, pid: Pid) {
    pid != shell && pid in claude
  }

  /** No process to be found is reached in fewer steps. */
  ghost predicate NoneNearer(children: Children, claude: set<Pid>, shell: Pid, steps: nat) {
    forall p, fewer: nat :: fewer < steps && Wanted(claude, shell, p) ==> !Below(children, shell, p, fewer)
  }

  /** Every process in the listing. */
  function Everyone(children: Children, shell: Pid): set<Pid> {
    {shell} + set parent, child | parent in children && child in children[parent] :: child
  }

  // ---- The search ------------------------------------------------------------------------

  datatype Visit = Visit(pid: Pid, depth: nat)

  /** First come, first served: depths never fall, and rise by one at most. */
  predicate Sorted(queue: seq<Visit>) {
    && (forall i, j :: 0 <= i < j < |queue| ==> queue[i].depth <= queue[j].depth)
    && (forall i :: 0 <= i < |queue| ==> queue[i].depth <= queue[0].depth + 1)
  }

  /** A process has been looked at from `depth` steps or fewer, or will be. */
  predicate Met(seen: map<Pid, nat>, queue: seq<Visit>, pid: Pid, depth: nat) {
    (pid in seen && seen[pid] <= depth) || (exists i :: 0 <= i < |queue| && queue[i] == Visit(pid, depth))
  }

  ghost predicate QueueFits(children: Children, shell: Pid, queue: seq<Visit>) {
    && Sorted(queue)
    && forall i :: 0 <= i < |queue| ==>
         queue[i].depth <= MAX_DEPTH && Below(children, shell, queue[i].pid, queue[i].depth)
  }

  /** The children of what has been looked at have been, or will be. */
  ghost predicate NoneMissed(children: Children, seen: map<Pid, nat>, queue: seq<Visit>) {
    forall p, c :: p in seen && seen[p] < MAX_DEPTH && IsChild(children, p, c) ==> Met(seen, queue, c, seen[p] + 1)
  }

  /** `seen`: how deep each process looked at so far was met. */
  ghost predicate Searching(children: Children, claude: set<Pid>, shell: Pid, seen: map<Pid, nat>, queue: seq<Visit>) {
    && QueueFits(children, shell, queue)
    && Met(seen, queue, shell, 0)
    && (forall p, i :: p in seen && 0 <= i < |queue| ==> seen[p] <= queue[i].depth)
    && (forall p :: p in seen ==> !Wanted(claude, shell, p))
    && NoneMissed(children, seen, queue)
  }

  /** Whatever lies above all that is still to be looked at has been looked at. */
  lemma {:induction false} AllSeen(children: Children, claude: set<Pid>, shell: Pid, seen: map<Pid, nat>,
                                   queue: seq<Visit>, pid: Pid, steps: nat)
    requires Searching(children, claude, shell, seen, queue) && Below(children, shell, pid, steps)
    requires steps <= MAX_DEPTH && forall i :: 0 <= i < |queue| ==> steps < queue[i].depth
    ensures pid in seen && seen[pid] <= steps
    decreases steps
  {
    if steps > 0 {
      var parent :| Below(children, shell, parent, steps - 1) && IsChild(children, parent, pid);
      AllSeen(children, claude, shell, seen, queue, parent, steps - 1);
      assert Met(seen, queue, pid, seen[parent] + 1);
    }
  }

  function Visits(pids: seq<Pid>, depth: nat): (visits: seq<Visit>)
    ensures |visits| == |pids| && forall i :: 0 <= i < |visits| ==> visits[i] == Visit(pids[i], depth)
  {
    seq(|pids|, i requires 0 <= i < |pids| => Visit(pids[i], depth))
  }

  /** The queue after the first in it, not wanted, has been looked at. */
  function Onwards(children: Children, seen: map<Pid, nat>, queue: seq<Visit>): seq<Visit>
    requires queue != []
  {
    var v := queue[0];
    if v.pid in seen || v.depth >= MAX_DEPTH || v.pid !in children then queue[1..]
    else queue[1..] + Visits(children[v.pid], v.depth + 1)
  }

  function Marked(seen: map<Pid, nat>, v: Visit): map<Pid, nat> {
    if v.pid in seen then seen else seen[v.pid := v.depth]
  }

  /** What was met, or would be, still is. */
  lemma StillMet(children: Children, seen: map<Pid, nat>, queue: seq<Visit>, pid: Pid, depth: nat)
    requires queue != [] && Met(seen, queue, pid, depth)
    requires queue[0].pid in seen ==> seen[queue[0].pid] <= queue[0].depth
    ensures Met(Marked(seen, queue[0]), Onwards(children, seen, queue), pid, depth)
  {
    var next := Onwards(children, seen, queue);
    if !(pid in seen && seen[pid] <= depth) {
      var i :| 0 <= i < |queue| && queue[i] == Visit(pid, depth);
      if i > 0 {
        assert next[i - 1] == Visit(pid, depth);
      }
    }
  }

  lemma ChildrenMet(children: Children, seen: map<Pid, nat>, queue: seq<Visit>, child: Pid)
    requires queue != [] && queue[0].pid !in seen && queue[0].depth < MAX_DEPTH
    requires IsChild(children, queue[0].pid, child)
    ensures Met(Marked(seen, queue[0]), Onwards(children, seen, queue), child, queue[0].depth + 1)
  {
    var pids := children[queue[0].pid];
    var i :| 0 <= i < |pids| && pids[i] == child;
    assert Onwards(children, seen, queue)[|queue| - 1 + i] == Visit(child, queue[0].depth + 1);
  }

  /** An entry of the queue is an old one, or a child of the first. */
  lemma OldOrChild(children: Children, seen: map<Pid, nat>, queue: seq<Visit>, i: nat)
    requires queue != [] && i < |Onwards(children, seen, queue)|
    ensures var next := Onwards(children, seen, queue);
      if i < |queue| - 1 then next[i] == queue[i + 1]
      else queue[0].depth < MAX_DEPTH && next[i].depth == queue[0].depth + 1
           && IsChild(children, queue[0].pid, next[i].pid)
  {
    var v := queue[0];
    if i >= |queue| - 1 {
      var k := i - (|queue| - 1);
      assert Onwards(children, seen, queue)[i] == Visits(children[v.pid], v.depth + 1)[k];
      assert children[v.pid][k] in children[v.pid];
    }
  }

  lemma SortedOn(children: Children, seen: map<Pid, nat>, queue: seq<Visit>)
    requires queue != [] && Sorted(queue) && forall i :: 0 <= i < |queue| ==> queue[i].depth <= MAX_DEPTH
    ensures var next := Onwards(children, seen, queue);
      Sorted(next) && forall i :: 0 <= i < |next| ==> queue[0].depth <= next[i].depth <= MAX_DEPTH
  {
    var next := Onwards(children, seen, queue);
    hide Onwards;
    hide IsChild;
    forall i | 0 <= i < |next| ensures queue[0].depth <= next[i].depth <= MAX_DEPTH {
      OldOrChild(children, seen, queue, i);
    }
    forall i, j | 0 <= i < j < |next| ensures next[i].depth <= next[j].depth <= next[i].depth + 1 {
      OldOrChild(children, seen, queue, i);
      OldOrChild(children, seen, queue, j);
    }
  }

  lemma QueueGoesOn(children: Children, shell: Pid, seen: map<Pid, nat>, queue: seq<Visit>)
    requires queue != [] && QueueFits(children, shell, queue)
    ensures var next := Onwards(children, seen, queue);
      QueueFits(children, shell, next) && forall i :: 0 <= i < |next| ==> next[i].depth >= queue[0].depth
  {
    var next := Onwards(children, seen, queue);
    SortedOn(children, seen, queue);
    hide Onwards;
    hide Sorted;
    forall i | 0 <= i < |next| ensures Below(children, shell, next[i].pid, next[i].depth) {
      OldOrChild(children, seen, queue, i);
    }
  }

  lemma NoneGoesMissing(children: Children, seen: map<Pid, nat>, queue: seq<Visit>)
    requires queue != [] && NoneMissed(children, seen, queue)
    requires queue[0].pid in seen ==> seen[queue[0].pid] <= queue[0].depth
    ensures NoneMissed(children, Marked(seen, queue[0]), Onwards(children, seen, queue))
  {
    var marked, next := Marked(seen, queue[0]), Onwards(children, seen, queue);
    hide Onwards;
    hide Met;
    forall p, c | p in marked && marked[p] < MAX_DEPTH && IsChild(children, p, c)
      ensures Met(marked, next, c, marked[p] + 1)
    {
      if p in seen {
        StillMet(children, seen, queue, c, seen[p] + 1);
      } else {
        ChildrenMet(children, seen, queue, c);
      }
    }
  }

  lemma SearchGoesOn(children: Children, claude: set<Pid>, shell: Pid, seen: map<Pid, nat>, queue: seq<Visit>)
    requires Searching(children, claude, shell, seen, queue) && queue != []
    requires queue[0].pid in seen || !Wanted(claude, shell, queue[0].pid)
    ensures Searching(children, claude, shell, Marked(seen, queue[0]), Onwards(children, seen, queue))
  {
    QueueGoesOn(children, shell, seen, queue);
    StillMet(children, seen, queue, shell, 0);
    NoneGoesMissing(children, seen, queue);
    hide QueueFits;
    hide Onwards;
    hide Met;
    hide NoneMissed;
  }

  /** A wanted process that comes up is as near as any. */
  lemma Nearest(children: Children, claude: set<Pid>, shell: Pid, seen: map<Pid, nat>, queue: seq<Visit>)
    requires Searching(children, claude, shell, seen, queue) && queue != []
    requires Wanted(claude, shell, queue[0].pid)
    ensures 1 <= queue[0].depth <= MAX_DEPTH && Below(children, shell, queue[0].pid, queue[0].depth)
    ensures NoneNearer(children, claude, shell, queue[0].depth)
  {
    forall p, fewer: nat | fewer < queue[0].depth && Wanted(claude, shell, p)
      ensures !Below(children, shell, p, fewer)
    {
      if Below(children, shell, p, fewer) {
        AllSeen(children, claude, shell, seen, queue, p, fewer);
      }
    }
  }

  predicate AllIn(queue: seq<Visit>, everyone: set<Pid>) {
    forall i :: 0 <= i < |queue| ==> queue[i].pid in everyone
  }

  lemma OnlyEveryone(children: Children, shell: Pid, seen: map<Pid, nat>, queue: seq<Visit>)
    requires queue != [] && AllIn(queue, Everyone(children, shell))
    ensures queue[0].pid in Everyone(children, shell)
    ensures AllIn(Onwards(children, seen, queue), Everyone(children, shell))
  {
    var v, next := queue[0], Onwards(children, seen, queue);
    forall i | 0 <= i < |next| ensures next[i].pid in Everyone(children, shell) {
      if i < |queue| - 1 {
        assert next[i] == queue[i + 1];
      } else {
        var child := children[v.pid][i - (|queue| - 1)];
        assert next[i] == Visit(child, v.depth + 1);
        assert child in children[v.pid];
      }
    }
  }

  lemma SearchStarts(children: Children, claude: set<Pid>, shell: Pid)
    ensures var queue := [Visit(shell, 0)];
      Searching(children, claude, shell, map[], queue) && AllIn(queue, Everyone(children, shell))
  {
    assert [Visit(shell, 0)][0] == Visit(shell, 0);
  }

  lemma NothingFound(children: Children, claude: set<Pid>, shell: Pid, seen: map<Pid, nat>)
    requires Searching(children, claude, shell, seen, [])
    ensures NoneNearer(children, claude, shell, MAX_DEPTH + 1)
  {
    forall p, d: nat | d <= MAX_DEPTH && Wanted(claude, shell, p) ensures !Below(children, shell, p, d) {
      if Below(children, shell, p, d) {
        AllSeen(children, claude, shell, seen, [], p, d);
      }
    }
  }

  lemma PassOver(children: Children, claude: set<Pid>, shell: Pid, seen: map<Pid, nat>, queue: seq<Visit>)
    requires Searching(children, claude, shell, seen, queue) && queue != [] && queue[0].pid in seen
    requires AllIn(queue, Everyone(children, shell))
    ensures Searching(children, claude, shell, seen, queue[1..]) && AllIn(queue[1..], Everyone(children, shell))
  {
    OnlyEveryone(children, shell, seen, queue);
    SearchGoesOn(children, claude, shell, seen, queue);
    assert Onwards(children, seen, queue) == queue[1..];
    hide *;
  }

  /** The queue without the first in it, and with its children. */
  function Later(children: Children, queue: seq<Visit>): seq<Visit>
    requires queue != []
  {
    var v := queue[0];
    if v.depth < MAX_DEPTH && v.pid in children then queue[1..] + Visits(children[v.pid], v.depth + 1)
    else queue[1..]
  }

  lemma LookAt(children: Children, claude: set<Pid>, shell: Pid, seen: map<Pid, nat>, queue: seq<Visit>)
    returns (next: seq<Visit>, marked: map<Pid, nat>)
    requires Searching(children, claude, shell, seen, queue) && queue != [] && queue[0].pid !in seen
    requires !Wanted(claude, shell, queue[0].pid) && AllIn(queue, Everyone(children, shell))
    ensures queue[0].pid in Everyone(children, shell)
    ensures var v := queue[0];
      && marked == seen[v.pid := v.depth]
      && next == Later(children, queue)
    ensures Searching(children, claude, shell, marked, next) && AllIn(next, Everyone(children, shell))
  {
    next, marked := Onwards(children, seen, queue), Marked(seen, queue[0]);
    OnlyEveryone(children, shell, seen, queue);
    SearchGoesOn(children, claude, shell, seen, queue);
    assert queue[0].depth <= MAX_DEPTH;
    hide Searching;
    hide AllIn;
    hide Everyone;
    hide Visits;
  }

  /** `seen` is what has been met, whatever the depth. */
  predicate Marks(seen: set<Pid>, depths: map<Pid, nat>) {
    seen == depths.Keys
  }

  lemma MarkNone(seen: set<Pid>, depths: map<Pid, nat>)
    requires seen == {} && depths == map[]
    ensures Marks(seen, depths)
  {
  }

  lemma MarkOne(seen: set<Pid>, depths: map<Pid, nat>, v: Visit)
    requires Marks(seen, depths)
    ensures Marks(seen + {v.pid}, depths[v.pid := v.depth])
  {
  }

  lemma MarkedOrNot(seen: set<Pid>, depths: map<Pid, nat>, pid: Pid)
    requires Marks(seen, depths)
    ensures pid in seen <==> pid in depths
  {
  }

  function Unseen(everyone: set<Pid>, seen: set<Pid>): nat {
    |everyone - seen|
  }

  lemma Fewer(everyone: set<Pid>, seen: set<Pid>, pid: Pid)
    requires pid in everyone && pid !in seen
    ensures Unseen(everyone, seen + {pid}) < Unseen(everyone, seen)
  {
    assert everyone - (seen + {pid}) == (everyone - seen) - {pid};
  }

  // ---- The loop --------------------------------------------------------------------------

  method PushChildren(children: Children, queue: seq<Visit>) returns (later: seq<Visit>)
    requires queue != []
    ensures later == Later(children, queue)
  {
    var v := queue[0];
    later := queue[1..];
    if v.depth < MAX_DEPTH && v.pid in children {
      var pids := children[v.pid];
      for i := 0 to |pids|
        invariant later == queue[1..] + Visits(pids, v.depth + 1)[..i]
      {
        later := later + [Visit(pids[i], v.depth + 1)];
      }
    }
  }

  /** `find_claude`: a Claude session as few steps below the shell as any, one to four;
      none just when there is none that near. */
  method Find(children: Children, claude: set<Pid>, shell: Pid) returns (found: Option<Pid>, ghost steps: nat)
    ensures found.Some? ==>
      && Wanted(claude, shell, found.value)
      && 1 <= steps <= 4 && Below(children, shell, found.value, steps)
      && NoneNearer(children, claude, shell, steps)
    ensures found.None? ==> NoneNearer(children, claude, shell, 5)
  {
    var queue := [Visit(shell, 0)];
    var seen: set<Pid> := {};
    ghost var depths: map<Pid, nat> := map[];
    ghost var everyone := Everyone(children, shell);
    found, steps := None, 0;
    hide *;
    SearchStarts(children, claude, shell);
    MarkNone(seen, depths);
    while queue != []
      invariant Marks(seen, depths)
      invariant AllIn(queue, everyone)
      invariant Searching(children, claude, shell, depths, queue)
      decreases Unseen(everyone, seen), |queue|
    {
      var v := queue[0];
      MarkedOrNot(seen, depths, v.pid);
      if v.pid in seen {
        PassOver(children, claude, shell, depths, queue);
        queue := queue[1..];
      } else if Wanted(claude, shell, v.pid) {
        Nearest(children, claude, shell, depths, queue);
        found, steps := Some(v.pid), v.depth;
        return;
      } else {
        ghost var next, marked := LookAt(children, claude, shell, depths, queue);
        queue := PushChildren(children, queue);
        Fewer(everyone, seen, v.pid);
        MarkOne(seen, depths, v);
        seen, depths := seen + {v.pid}, marked;
      }
    }
    NothingFound(children, claude, shell, depths);
  }
}
