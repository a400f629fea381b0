/** Changing permissions through a whole tree (`chmod`, src-tauri/src/vfs/commands.rs):
    a loop over a stack, and the order it visits the tree in. */
module ChmodWalk {
  import opened Basics

  /** A mode as the set of its bits, the lowest numbered 0. */
  type Mode = set<nat>
  type Path = seq<string>

  datatype Kind = File | Link | Folder

  /** An entry as a listing gives it; a folder's listing, last entry last. */
  datatype Tree = Tree(name: string, kind: Kind, mode: Option<Mode>, inside: Forest)
  datatype Forest = Nil | Cons(head: Tree, tail: Forest)

  // ---- The change --------------------------------------------------------------------

  /** The permission bits, 0o7777. */
  const PERMISSIONS: Mode := {0, 1, 2, 3, 4, 5, 6, 7, 8, 9, 10, 11}

  /** Those for reading, 0o444. */
  const READ: Mode := {2, 5, 8}

  /** Permission bits to turn on and off. */
  datatype ModeChange = ModeChange(on: Mode, off: Mode)

  function Apply(change: ModeChange, before: Option<Mode>): Option<Mode> {
    if before.None? && !(PERMISSIONS <= change.on + change.off) then None
    else
      var base := if before.Some? then before.value * PERMISSIONS else {};
      Some(((base - change.off) + change.on) * PERMISSIONS)
  }

  /** An entry's new mode: a folder also gets `x` wherever `r` is set. */
  function NewMode(change: ModeChange, kind: Kind, before: Option<Mode>): Option<Mode> {
    var mode := Apply(change, before);
    if mode.Some? && kind.Folder? then Some(mode.value + set b | b in mode.value * READ :: b - 2) else mode
  }

  /** Every permission bit is on if asked for, or if it was and isn't to go, and a
      folder that can be read can be opened; no other bit is touched. */
  lemma ModeBits(change: ModeChange, kind: Kind, before: Option<Mode>, bit: nat)
    requires bit < 12 && NewMode(change, kind, before).Some?
    ensures var m := NewMode(change, kind, before).value;
      && (forall b :: b in m ==> b < 12)
      && (bit in m <==>
            || bit in change.on
            || (before.Some? && bit in before.value && bit !in change.off)
            || (kind.Folder? && bit in {0, 3, 6} && bit + 2 in m))
  {
    var plain, m := Apply(change, before).value, NewMode(change, kind, before).value;
    if kind.Folder? {
      if bit in m && bit !in plain {
        var b :| b in plain * READ && b - 2 == bit;
        assert b == bit + 2;
      }
      if bit in {0, 3, 6} && bit + 2 in plain {
        assert bit + 2 in plain * READ && (bit + 2) - 2 == bit;
      }
    }
  }

  /** The mode must be known, unless the change decides every bit. */
  lemma ModeUnknown(change: ModeChange, kind: Kind, before: Option<Mode>)
    ensures NewMode(change, kind, before).None? <==>
      before.None? && exists bit: nat :: bit < 12 && bit !in change.on && bit !in change.off
  {
  }

  /** Changing the same again changes nothing. */
  lemma ModeAgain(change: ModeChange, kind: Kind, before: Option<Mode>)
    requires NewMode(change, kind, before).Some?
    ensures NewMode(change, kind, NewMode(change, kind, before)) == NewMode(change, kind, before)
  {
    var m := NewMode(change, kind, before);
    var n := NewMode(change, kind, m);
    forall bit | bit in PERMISSIONS ensures bit in n.value <==> bit in m.value {
      ModeBits(change, kind, before, bit);
      ModeBits(change, kind, m, bit);
      if bit in {0, 3, 6} {
        ModeBits(change, kind, before, bit + 2);
        ModeBits(change, kind, m, bit + 2);
      }
    }
    ModeBits(change, kind, before, 0);
    ModeBits(change, kind, m, 0);
    assert n.value == m.value;
  }

  // ---- What is done to the filesystem ------------------------------------------------------

  datatype Op =
    | List(path: Path, ok: bool)
    | Set(path: Path, mode: Mode, ok: bool)
    | Unknown(path: Path)   // left alone: its mode isn't known

  /** Which folders can be listed and which modes set. */
  datatype World = World(lists: Path -> bool, sets: Path -> bool)

  /** An entry changed, or not. */
  function Change(w: World, change: ModeChange, path: Path, t: Tree): Op {
    var mode := NewMode(change, t.kind, t.mode);
    if mode.Some? then Set(path, mode.value, w.sets(path)) else Unknown(path)
  }

  /** The walk of an entry at `path`: links inside left alone, a folder after what is
      in it, its last entry first. */
  function Visits(w: World, change: ModeChange, path: Path, t: Tree, top: bool): seq<Op>
    decreases t, 1
  {
    if t.kind.Link? && !top then []
    else if !t.kind.Folder? then [Change(w, change, path, t)]
    else
      [List(path, w.lists(path))]
      + (if w.lists(path) then VisitsAll(w, change, path, t.inside) else [])
      + [Change(w, change, path, t)]
  }

  function VisitsAll(w: World, change: ModeChange, path: Path, f: Forest): seq<Op>
    decreases f, 0
  {
    match f
    case Nil => []
    case Cons(head, tail) =>
      VisitsAll(w, change, path, tail) + Visits(w, change, path + [head.name], head, false)
  }

  // ---- The order ----------------------------------------------------------------------------

  /** A folder's names are different. */
  predicate Distinct(t: Tree)
    decreases t, 1
  {
    DistinctAll(t.inside)
  }

  predicate DistinctAll(f: Forest)
    decreases f, 0
  {
    f.Nil? || (f.head.name !in Names(f.tail) && Distinct(f.head) && DistinctAll(f.tail))
  }

  function Names(f: Forest): set<string> {
    if f.Nil? then {} else {f.head.name} + Names(f.tail)
  }

  /** Once an entry's mode is changed (or left), nothing at it or inside it is touched
      again: so each is changed at most once, a folder after everything in it, and
      whatever is listed or changed is still inside folders as they were. No folder is
      listed twice. */
  ghost predicate Sealed(ops: seq<Op>) {
    && (forall i, j :: 0 <= i < j < |ops| && !ops[i].List? ==> !(ops[i].path <= ops[j].path))
    && (forall i, j :: 0 <= i < j < |ops| && ops[i].List? && ops[j].List? ==> ops[i].path != ops[j].path)
  }

  ghost predicate Inside(ops: seq<Op>, path: Path) {
    forall i :: 0 <= i < |ops| ==> path <= ops[i].path
  }

  /** Only paths that go on from `path` with one of `names`. */
  ghost predicate Among(ops: seq<Op>, path: Path, names: set<string>) {
    forall i :: 0 <= i < |ops| ==>
      path <= ops[i].path && |ops[i].path| > |path| && ops[i].path[|path|] in names
  }

  lemma SealedTwo(a: seq<Op>, b: seq<Op>)
    requires Sealed(a) && Sealed(b)
    requires forall i, j :: 0 <= i < |a| && 0 <= j < |b| ==>
      && (a[i].List? && b[j].List? ==> a[i].path != b[j].path)
      && (!a[i].List? ==> !(a[i].path <= b[j].path))
    ensures Sealed(a + b)
  {
    var ab := a + b;
    forall i, j | 0 <= i < j < |ab|
      ensures !ab[i].List? ==> !(ab[i].path <= ab[j].path)
      ensures ab[i].List? && ab[j].List? ==> ab[i].path != ab[j].path
    {
      if i < |a| <= j {
        assert ab[i] == a[i] && ab[j] == b[j - |a|];
      }
    }
  }

  /** A folder around what is in it. */
  lemma FolderSealed(path: Path, names: set<string>, listed: bool, all: seq<Op>, own: Op)
    requires Sealed(all) && Among(all, path, names) && own.path == path && !own.List?
    ensures var ops := [List(path, listed)] + all + [own]; Sealed(ops) && Inside(ops, path)
  {
    var first := [List(path, listed)];
    SealedTwo(first, all);
    var most := first + all;
    forall i, j | 0 <= i < |most| && 0 <= j < 1 ensures !most[i].List? ==> !(most[i].path <= [own][j].path) {
    }
    SealedTwo(most, [own]);
  }

  lemma {:induction false} WalkSealed(w: World, change: ModeChange, path: Path, t: Tree, top: bool)
    requires Distinct(t)
    ensures Sealed(Visits(w, change, path, t, top)) && Inside(Visits(w, change, path, t, top), path)
    decreases t, 1
  {
    if t.kind.Folder? {
      ForestSealed(w, change, path, t.inside);
      var all := if w.lists(path) then VisitsAll(w, change, path, t.inside) else [];
      FolderSealed(path, Names(t.inside), w.lists(path), all, Change(w, change, path, t));
      hide Sealed;
      hide Inside;
    }
  }

  lemma {:induction false} ForestSealed(w: World, change: ModeChange, path: Path, f: Forest)
    requires DistinctAll(f)
    ensures Sealed(VisitsAll(w, change, path, f)) && Among(VisitsAll(w, change, path, f), path, Names(f))
    decreases f, 0
  {
    if f.Cons? {
      ForestSealed(w, change, path, f.tail);
      var child := path + [f.head.name];
      WalkSealed(w, change, child, f.head, false);
      var rest, first := VisitsAll(w, change, path, f.tail), Visits(w, change, child, f.head, false);
      forall i, j | 0 <= i < |rest| && 0 <= j < |first|
        ensures rest[i].path != first[j].path && !(rest[i].path <= first[j].path)
      {
        assert child <= first[j].path && first[j].path[|path|] == f.head.name;
        assert rest[i].path[|path|] in Names(f.tail);
      }
      SealedTwo(rest, first);
    }
  }

  // ---- What is reached ------------------------------------------------------------------------

  /** The entry found by going down `way` through folders that can be listed; a link
      only if it is where the walk began. */
  function Reach(w: World, path: Path, t: Tree, way: Path, top: bool): Option<Tree>
    decreases t, 1
  {
    if way == [] then (if t.kind.Link? && !top then None else Some(t))
    else if t.kind.Folder? && w.lists(path) then ReachIn(w, path, t.inside, way)
    else None
  }

  function ReachIn(w: World, path: Path, f: Forest, way: Path): Option<Tree>
    requires way != []
    decreases f, 0
  {
    if f.Nil? then None
    else if f.head.name == way[0] then Reach(w, path + [way[0]], f.head, way[1..], false)
    else ReachIn(w, path, f.tail, way)
  }

  /** Everything reached is changed. */
  lemma {:induction false} ReachedIsChanged(w: World, change: ModeChange, path: Path, t: Tree, way: Path, top: bool)
    requires Reach(w, path, t, way, top).Some?
    ensures Change(w, change, path + way, Reach(w, path, t, way, top).value) in Visits(w, change, path, t, top)
    decreases t, 1
  {
    hide Change;
    if way == [] {
      assert path + way == path;
    } else {
      ReachedInIsChanged(w, change, path, t.inside, way);
    }
  }

  lemma {:induction false} ReachedInIsChanged(w: World, change: ModeChange, path: Path, f: Forest, way: Path)
    requires way != [] && ReachIn(w, path, f, way).Some?
    ensures Change(w, change, path + way, ReachIn(w, path, f, way).value) in VisitsAll(w, change, path, f)
    decreases f, 0
  {
    hide Change;
    if f.head.name == way[0] {
      ReachedIsChanged(w, change, path + [way[0]], f.head, way[1..], false);
      assert path + [way[0]] + way[1..] == path + way;
    } else {
      ReachedInIsChanged(w, change, path, f.tail, way);
    }
  }

  /** Nothing else is. */
  ghost predicate Changes(op: Op, w: World, change: ModeChange, path: Path, found: Option<Tree>) {
    found.Some? && op == Change(w, change, path, found.value)
  }

  lemma {:induction false} ChangedIsReached(w: World, change: ModeChange, path: Path, t: Tree, top: bool, op: Op)
    requires Distinct(t) && op in Visits(w, change, path, t, top) && !op.List?
    ensures path <= op.path && Changes(op, w, change, op.path, Reach(w, path, t, op.path[|path|..], top))
    decreases t, 1
  {
    hide NewMode;
    if op == Change(w, change, path, t) {
    } else {
      ChangedInIsReached(w, change, path, t.inside, op);
    }
  }

  lemma {:induction false} ChangedInIsReached(w: World, change: ModeChange, path: Path, f: Forest, op: Op)
    requires DistinctAll(f) && op in VisitsAll(w, change, path, f) && !op.List?
    ensures path <= op.path && |op.path| > |path| && op.path[|path|] in Names(f)
    ensures Changes(op, w, change, op.path, ReachIn(w, path, f, op.path[|path|..]))
    decreases f, 0
  {
    hide Changes;
    hide Change;
    if op in VisitsAll(w, change, path, f.tail) {
      ChangedInIsReached(w, change, path, f.tail, op);
    } else {
      var child := path + [f.head.name];
      ChangedIsReached(w, change, child, f.head, false, op);
      assert child[|path|] == op.path[|path|];
      assert op.path[|path|..][1..] == op.path[|child|..];
    }
  }

  // ---- Counting -------------------------------------------------------------------------------

  predicate Fails(op: Op) {
    op.Unknown? || !op.ok
  }

  function Succeeded(ops: seq<Op>): nat
    decreases |ops|
  {
    if ops == [] then 0 else Succeeded(ops[..|ops| - 1]) + if ops[|ops| - 1].Set? && ops[|ops| - 1].ok then 1 else 0
  }

  function Failures(ops: seq<Op>): seq<Path>
    decreases |ops|
  {
    if ops == [] then []
    else Failures(ops[..|ops| - 1]) + if Fails(ops[|ops| - 1]) then [ops[|ops| - 1].path] else []
  }

  /** The entries that are not links. */
  function Entries(t: Tree, top: bool): nat
    decreases t, 1
  {
    (if t.kind.Link? && !top then 0 else 1) + if t.kind.Folder? then EntriesIn(t.inside) else 0
  }

  function EntriesIn(f: Forest): nat
    decreases f, 0
  {
    if f.Nil? then 0 else EntriesIn(f.tail) + Entries(f.head, false)
  }

  lemma {:induction false} CountTwo(a: seq<Op>, b: seq<Op>)
    ensures Succeeded(a + b) == Succeeded(a) + Succeeded(b)
    ensures Failures(a + b) == Failures(a) + Failures(b)
    decreases |b|
  {
    if b == [] {
      assert a + b == a;
    } else {
      var last, before := b[|b| - 1], b[..|b| - 1];
      assert (a + b)[..|a + b| - 1] == a + before;
      CountTwo(a, before);
    }
  }

  lemma CountOne(op: Op)
    ensures Succeeded([op]) == (if op.Set? && op.ok then 1 else 0) && Succeeded([]) == 0
    ensures Failures([op]) == (if Fails(op) then [op.path] else []) && Failures([]) == []
  {
    assert [op][..0] == [];
  }

  /** Three stretches of a walk, none with a failure. */
  lemma CountThree(a: seq<Op>, b: seq<Op>, c: seq<Op>)
    requires Failures(a + b + c) == []
    ensures Failures(a) == [] && Failures(b) == [] && Failures(c) == []
    ensures Succeeded(a + b + c) == Succeeded(a) + Succeeded(b) + Succeeded(c)
  {
    CountTwo(a, b);
    CountTwo(a + b, c);
    hide *;
  }

  /** With no failure, as many were changed as there are entries that are not links. */
  lemma {:induction false} NoFailure(w: World, change: ModeChange, path: Path, t: Tree, top: bool)
    requires Failures(Visits(w, change, path, t, top)) == []
    ensures Succeeded(Visits(w, change, path, t, top)) == Entries(t, top)
    decreases t, 1
  {
    hide Failures;
    hide Succeeded;
    hide NewMode;
    var own := Change(w, change, path, t);
    CountOne(own);
    if t.kind.Folder? {
      var listed := List(path, w.lists(path));
      var all := if w.lists(path) then VisitsAll(w, change, path, t.inside) else [];
      CountOne(listed);
      CountThree([listed], all, [own]);
      hide Change;
      NoFailureIn(w, change, path, t.inside);
    }
  }

  lemma {:induction false} NoFailureIn(w: World, change: ModeChange, path: Path, f: Forest)
    requires Failures(VisitsAll(w, change, path, f)) == []
    ensures Succeeded(VisitsAll(w, change, path, f)) == EntriesIn(f)
    decreases f, 0
  {
    if f.Cons? {
      var child := path + [f.head.name];
      CountTwo(VisitsAll(w, change, path, f.tail), Visits(w, change, child, f.head, false));
      NoFailureIn(w, change, path, f.tail);
      NoFailure(w, change, child, f.head, false);
    }
  }

  // ---- Modes over time -----------------------------------------------------------------------

  function Replay(modes: map<Path, Mode>, ops: seq<Op>): map<Path, Mode>
    decreases |ops|
  {
    if ops == [] then modes
    else
      var before, last := Replay(modes, ops[..|ops| - 1]), ops[|ops| - 1];
      if last.Set? && last.ok then before[last.path := last.mode] else before
  }

  /** The same mode, or none. */
  predicate SameAt(a: map<Path, Mode>, b: map<Path, Mode>, path: Path) {
    (path in a <==> path in b) && (path in a ==> a[path] == b[path])
  }

  lemma {:induction false} Untouched(modes: map<Path, Mode>, ops: seq<Op>, path: Path)
    requires forall op :: op in ops && op.Set? ==> op.path != path
    ensures SameAt(Replay(modes, ops), modes, path)
    decreases |ops|
  {
    if ops != [] {
      Untouched(modes, ops[..|ops| - 1], path);
      assert ops[|ops| - 1] in ops;
    }
  }

  /** Whenever an entry is listed or changed, it and every folder it is in still have
      the modes they had before the walk. */
  lemma StillAsBefore(modes: map<Path, Mode>, ops: seq<Op>, i: nat, folder: Path)
    requires Sealed(ops) && i < |ops| && folder <= ops[i].path
    ensures SameAt(Replay(modes, ops[..i]), modes, folder)
  {
    forall op | op in ops[..i] && op.Set? ensures op.path != folder {
      var j :| 0 <= j < i && op == ops[j];
      assert !(ops[j].path <= ops[i].path);
    }
    Untouched(modes, ops[..i], folder);
  }

  /** And an entry that was changed keeps its new mode. */
  lemma {:induction false} EndsAsSet(modes: map<Path, Mode>, ops: seq<Op>, i: nat)
    requires Sealed(ops) && i < |ops| && ops[i].Set? && ops[i].ok
    ensures ops[i].path in Replay(modes, ops) && Replay(modes, ops)[ops[i].path] == ops[i].mode
    decreases |ops|
  {
    var last := |ops| - 1;
    if i < last {
      assert !ops[i].List? && !(ops[i].path <= ops[last].path);
      EndsAsSet(modes, ops[..last], i);
    }
  }

  // ---- The loop ---------------------------------------------------------------------------------

  /** The filesystem: its modes, and what has been asked of it. */
  class Files {
    const world: World
    var modes: map<Path, Mode>
    ghost var ops: seq<Op>

    constructor (world: World, modes: map<Path, Mode>)
      ensures this.world == world && this.modes == modes && ops == []
    {
      this.world, this.modes, ops := world, modes, [];
    }

    method ListFolder(path: Path) returns (ok: bool)
      modifies `ops
      ensures ok == world.lists(path) && ops == old(ops) + [List(path, ok)]
    {
      ok := world.lists(path);
      ops := ops + [List(path, ok)];
    }

    method SetMode(path: Path, mode: Mode) returns (ok: bool)
      modifies this
      ensures ok == world.sets(path) && ops == old(ops) + [Set(path, mode, ok)]
      ensures modes == if ok then old(modes)[path := mode] else old(modes)
    {
      ok := world.sets(path);
      if ok {
        modes := modes[path := mode];
      }
      ops := ops + [Set(path, mode, ok)];
    }

    ghost method LeaveAlone(path: Path)
      modifies `ops
      ensures ops == old(ops) + [Unknown(path)]
    {
      ops := ops + [Unknown(path)];
    }
  }

  /** An entry on the stack; `done` if its contents are. */
  datatype Pending = Pending(path: Path, tree: Tree, depth: nat, done: bool)

  /** What is still to be done. */
  function Rest(w: World, change: ModeChange, pending: seq<Pending>): seq<Op>
    decreases |pending|
  {
    if pending == [] then []
    else ItemRest(w, change, pending[|pending| - 1]) + Rest(w, change, pending[..|pending| - 1])
  }

  function ItemRest(w: World, change: ModeChange, item: Pending): seq<Op> {
    if item.done then [Change(w, change, item.path, item.tree)]
    else Visits(w, change, item.path, item.tree, item.depth == 0)
  }

  lemma RestPush(w: World, change: ModeChange, pending: seq<Pending>, item: Pending)
    ensures Rest(w, change, pending + [item]) == ItemRest(w, change, item) + Rest(w, change, pending)
  {
    assert (pending + [item])[..|pending|] == pending;
  }

  function Weight(t: Tree): nat
    decreases t, 1
  {
    2 + WeightIn(t.inside)
  }

  function WeightIn(f: Forest): nat
    decreases f, 0
  {
    if f.Nil? then 0 else Weight(f.head) + WeightIn(f.tail)
  }

  function Work(pending: seq<Pending>): nat
    decreases |pending|
  {
    if pending == [] then 0
    else
      var item := pending[|pending| - 1];
      (if item.done then 1 else Weight(item.tree)) + Work(pending[..|pending| - 1])
  }

  lemma WorkPush(pending: seq<Pending>, item: Pending)
    ensures Work(pending + [item]) == Work(pending) + if item.done then 1 else Weight(item.tree)
  {
    assert (pending + [item])[..|pending|] == pending;
  }

  /** A folder's entries go on the stack, and the last comes off first. */
  method PushChildren(ghost w: World, ghost change: ModeChange, pending: seq<Pending>, path: Path, inside: Forest,
                      depth: nat) returns (more: seq<Pending>)
    ensures Rest(w, change, more) == VisitsAll(w, change, path, inside) + Rest(w, change, pending)
    ensures Work(more) == Work(pending) + WeightIn(inside)
    ensures forall item :: item in more ==> item in pending || !item.done
  {
    more := pending;
    var left := inside;
    while left.Cons?
      invariant VisitsAll(w, change, path, left) + Rest(w, change, more)
             == VisitsAll(w, change, path, inside) + Rest(w, change, pending)
      invariant Work(more) + WeightIn(left) == Work(pending) + WeightIn(inside)
      invariant forall item :: item in more ==> item in pending || !item.done
      decreases left
    {
      var child := Pending(path + [left.head.name], left.head, depth + 1, false);
      RestPush(w, change, more, child);
      WorkPush(more, child);
      Associate(VisitsAll(w, change, path, left.tail), ItemRest(w, change, child), Rest(w, change, more));
      more := more + [child];
      left := left.tail;
    }
    assert [] + Rest(w, change, more) == Rest(w, change, more);
  }

  /** One more thing done. */
  lemma CountMore(ops: seq<Op>, op: Op)
    ensures Succeeded(ops + [op]) == Succeeded(ops) + if op.Set? && op.ok then 1 else 0
    ensures Failures(ops + [op]) == Failures(ops) + if Fails(op) then [op.path] else []
  {
    assert (ops + [op])[..|ops|] == ops;
  }

  /** A folder's turn before its contents'. */
  lemma FolderTurn(w: World, change: ModeChange, ops: seq<Op>, item: Pending, rest: seq<Op>)
    requires !item.done && item.tree.kind.Folder?
    ensures var all := if w.lists(item.path) then VisitsAll(w, change, item.path, item.tree.inside) else [];
      ops + (ItemRest(w, change, item) + rest)
      == (ops + [List(item.path, w.lists(item.path))]) + (all + (ItemRest(w, change, item.(done := true)) + rest))
  {
    var all := if w.lists(item.path) then VisitsAll(w, change, item.path, item.tree.inside) else [];
    var listed, own := [List(item.path, w.lists(item.path))], [Change(w, change, item.path, item.tree)];
    assert ItemRest(w, change, item) == listed + all + own;
    assert ItemRest(w, change, item.(done := true)) == own;
    hide *;
    Associate(listed + all, own, rest);
    Associate(listed, all, own + rest);
    Associate(ops, listed, all + (own + rest));
  }

  datatype Report = Report(changed: nat, failed: nat, first: Option<Path>)

  /** What has been counted of what has been done. */
  function ReportOf(ops: seq<Op>): Report {
    var failures := Failures(ops);
    Report(Succeeded(ops), |failures|, if failures == [] then None else Some(failures[0]))
  }

  function Fail(r: Report, path: Path): Report {
    r.(failed := r.failed + 1, first := if r.first.None? then Some(path) else r.first)
  }

  lemma ReportMore(ops: seq<Op>, op: Op)
    ensures ReportOf(ops + [op]) ==
      if op.Unknown? || !op.ok then Fail(ReportOf(ops), op.path)
      else ReportOf(ops).(changed := ReportOf(ops).changed + if op.Set? then 1 else 0)
  {
    CountMore(ops, op);
  }

  /** One entry changed, or left because its mode isn't known. */
  method ChangeItem(files: Files, item: Pending, change: ModeChange, before: Report, ghost start: map<Path, Mode>)
    returns (report: Report)
    requires before == ReportOf(files.ops) && files.modes == Replay(start, files.ops)
    modifies files
    ensures files.ops == old(files.ops) + [Change(files.world, change, item.path, item.tree)]
    ensures report == ReportOf(files.ops)
    ensures files.modes == Replay(start, files.ops)
  {
    ReplayMore(start, files.ops, Change(files.world, change, item.path, item.tree));
    hide Replay;
    ReportMore(files.ops, Change(files.world, change, item.path, item.tree));
    hide ReportOf;
    hide NewMode;
    var mode := NewMode(change, item.tree.kind, item.tree.mode);
    if mode.None? {
      files.LeaveAlone(item.path);
      report := Fail(before, item.path);
    } else {
      var ok := files.SetMode(item.path, mode.value);
      report := if ok then before.(changed := before.changed + 1) else Fail(before, item.path);
    }
  }

  lemma ReplayMore(start: map<Path, Mode>, ops: seq<Op>, op: Op)
    ensures Replay(start, ops + [op])
         == if op.Set? && op.ok then Replay(start, ops)[op.path := op.mode] else Replay(start, ops)
  {
    assert (ops + [op])[..|ops|] == ops;
  }

  lemma Pop(w: World, change: ModeChange, pending: seq<Pending>)
    requires pending != []
    ensures var item, rest := pending[|pending| - 1], pending[..|pending| - 1];
      && Rest(w, change, pending) == ItemRest(w, change, item) + Rest(w, change, rest)
      && Work(pending) == Work(rest) + (if item.done then 1 else Weight(item.tree))
      && Weight(item.tree) == 2 + WeightIn(item.tree.inside)
      && forall i :: i in rest ==> i in pending
  {
  }

  /** The walk through `top`: a failure does not stop it. */
  method Walk(files: Files, path: Path, top: Tree, change: ModeChange) returns (report: Report)
    requires files.ops == [] && top.kind.Folder?
    modifies files
    ensures files.ops == Visits(files.world, change, path, top, true)
    ensures report == ReportOf(files.ops)
    ensures files.modes == Replay(old(files.modes), files.ops)
  {
    ghost var w := files.world;
    ghost var all := Visits(w, change, path, top, true);
    var pending := [Pending(path, top, 0, false)];
    report := Report(0, 0, None);
    WalkStarts(w, change, path, top);
    assert Rest(w, change, []) == [];
    ghost var start := files.modes;
    assert Replay(start, []) == start;
    hide *;
    while pending != []
      invariant all == files.ops + Rest(w, change, pending)
      invariant report == ReportOf(files.ops)
      invariant files.modes == Replay(start, files.ops)
      invariant forall item :: item in pending ==> item.done ==> item.tree.kind.Folder?
      decreases Work(pending)
    {
      Pop(w, change, pending);
      var item := pending[|pending| - 1];
      pending := pending[..|pending| - 1];
      ghost var rest := Rest(w, change, pending);
      if item.depth > 0 && item.tree.kind.Link? {
        LinkTurn(w, change, item, rest);
      } else if item.tree.kind.Folder? && !item.done {
        FolderTurn(w, change, files.ops, item, rest);
        ReportMore(files.ops, List(item.path, w.lists(item.path)));
        ReplayMore(start, files.ops, List(item.path, w.lists(item.path)));
        var ok := files.ListFolder(item.path);
        RestPush(w, change, pending, item.(done := true));
        WorkPush(pending, item.(done := true));
        pending := pending + [item.(done := true)];
        if ok {
          pending := PushChildren(w, change, pending, item.path, item.tree.inside, item.depth);
        } else {
          assert [] + Rest(w, change, pending) == Rest(w, change, pending);
          report := Fail(report, item.path);
        }
      } else {
        OwnTurn(w, change, item, files.ops, rest);
        report := ChangeItem(files, item, change, report, start);
      }
    }
    assert files.ops + [] == files.ops;
  }

  datatype Outcome =
    | Changed(count: nat)
    | Failed(count: nat, first: Path)
    | Missing          // it could not be looked at
    | UnknownMode
    | Refused

  /** `chmod` of the entry at `path`: `entry` is what is there, `target` what a link
      there leads to. */
  method Chmod(files: Files, path: Path, entry: Option<Tree>, target: Option<Tree>, change: ModeChange,
               recursive: bool)
    returns (outcome: Outcome)
    requires files.ops == []
    modifies files
    ensures var top := if entry.Some? && entry.value.kind.Link? then target else entry;
      if top.None? then outcome.Missing? && files.ops == []
      else if recursive && top.value.kind.Folder? then
        var failures := Failures(files.ops);
        && files.ops == Visits(files.world, change, path, top.value, true)
        && (failures == [] ==> outcome == Changed(Entries(top.value, true)))
        && (failures != [] ==> outcome == Failed(|failures|, failures[0]))
      else
        var mode := Apply(change, top.value.mode);
        && files.ops == (if mode.Some? then [Set(path, mode.value, files.world.sets(path))] else [])
        && outcome == if mode.None? then UnknownMode else if files.world.sets(path) then Changed(1) else Refused
    ensures files.modes == Replay(old(files.modes), files.ops)
  {
    if entry.None? {
      return Missing;
    }
    var top := entry.value;
    if top.kind.Link? {
      if target.None? {
        return Missing;
      }
      top := target.value;
    }
    if !(recursive && top.kind.Folder?) {
      var mode := Apply(change, top.mode);
      if mode.None? {
        return UnknownMode;
      }
      ReplayMore(files.modes, files.ops, Set(path, mode.value, files.world.sets(path)));
      var ok := files.SetMode(path, mode.value);
      return if ok then Changed(1) else Refused;
    }
    var report := Walk(files, path, top, change);
    if Failures(files.ops) == [] {
      NoFailure(files.world, change, path, top, true);
    }
    hide Visits;
    outcome := if report.first.None? then Changed(report.changed) else Failed(report.failed, report.first.value);
  }

  lemma WalkStarts(w: World, change: ModeChange, path: Path, top: Tree)
    ensures Visits(w, change, path, top, true) == [] + Rest(w, change, [Pending(path, top, 0, false)])
    ensures ReportOf([]) == Report(0, 0, None)
  {
    var item := Pending(path, top, 0, false);
    RestPush(w, change, [], item);
    assert [] + [item] == [item];
    assert ItemRest(w, change, item) + [] == ItemRest(w, change, item);
  }

  lemma LinkTurn(w: World, change: ModeChange, item: Pending, rest: seq<Op>)
    requires item.depth > 0 && item.tree.kind.Link? && !item.done
    ensures ItemRest(w, change, item) + rest == rest
  {
  }

  lemma OwnTurn(w: World, change: ModeChange, item: Pending, ops: seq<Op>, rest: seq<Op>)
    requires if item.tree.kind.Folder? then item.done else !item.done && !(item.depth > 0 && item.tree.kind.Link?)
    ensures ops + (ItemRest(w, change, item) + rest) == (ops + [Change(w, change, item.path, item.tree)]) + rest
  {
    assert ItemRest(w, change, item) == [Change(w, change, item.path, item.tree)];
    hide Change;
  }
}