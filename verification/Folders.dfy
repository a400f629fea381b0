/** The folders of saved connections (src/connections.ts, src-tauri/src/store.rs): a
    forest of parents, kept one by the moves, creations and deletions made of it. */
module Folders {
  import opened Basics

  type Id = nat

  datatype Folder = Folder(id: Id, name: string, parent: Option<Id>)
  datatype Session = Session(id: Id, folder: Option<Id>, order: Option<nat>)

  /** Each folder's parent, by its id. */
  type Parents = map<Id, Option<Id>>

  /** As a list is searched: the first folder with an id is the one. */
  function Table(folders: seq<Folder>): Parents
    decreases |folders|
  {
    if folders == [] then map[] else Table(folders[1..])[folders[0].id := folders[0].parent]
  }

  // ---- Climbing ------------------------------------------------------------------------

  /** `id` has its place: the root is at most `steps` parents above its own. */
  predicate Rooted(m: Parents, id: Id, steps: nat)
    decreases steps
  {
    id in m && (m[id].None? || (steps > 0 && Rooted(m, m[id].value, steps - 1)))
  }

  /** Climbing exactly `steps` parents from `id` comes to `above`. */
  predicate Climbs(m: Parents, id: Id, above: Id, steps: nat)
    decreases steps
  {
    steps > 0 && id in m && m[id].Some?
    && if steps == 1 then m[id].value == above else Climbs(m, m[id].value, above, steps - 1)
  }

  ghost predicate Under(m: Parents, id: Id, above: Id) {
    exists steps: nat :: Climbs(m, id, above, steps)
  }

  /** Everything can be reached from the root: no cycles, no missing parents. */
  ghost predicate Forest(m: Parents) {
    forall id :: id in m ==> exists steps: nat :: Rooted(m, id, steps)
  }

  lemma {:induction false} RootedLonger(m: Parents, id: Id, few: nat, many: nat)
    requires Rooted(m, id, few) && few <= many
    ensures Rooted(m, id, many)
    decreases few
  {
    if m[id].Some? {
      RootedLonger(m, m[id].value, few - 1, many - 1);
    }
  }

  /** What is above something rooted is rooted, and sooner. */
  lemma {:induction false} RootedAbove(m: Parents, id: Id, above: Id, steps: nat, n: nat)
    requires Rooted(m, id, n) && Climbs(m, id, above, steps)
    ensures steps <= n && Rooted(m, above, n - steps)
    decreases steps
  {
    if steps > 1 {
      RootedAbove(m, m[id].value, above, steps - 1, n - 1);
    }
  }

  lemma {:induction false} ClimbsOn(m: Parents, id: Id, middle: Id, above: Id, a: nat, b: nat)
    requires Climbs(m, id, middle, a) && Climbs(m, middle, above, b)
    ensures Climbs(m, id, above, a + b)
    decreases a
  {
    if a > 1 {
      ClimbsOn(m, m[id].value, middle, above, a - 1, b);
    }
  }

  /** Nothing rooted is under itself. */
  lemma {:induction false} NotUnderItself(m: Parents, id: Id, n: nat, steps: nat)
    requires Rooted(m, id, n)
    ensures !Climbs(m, id, id, steps)
    decreases n
  {
    if Climbs(m, id, id, steps) {
      RootedAbove(m, id, id, steps, n);
      NotUnderItself(m, id, n - steps, steps);
    }
  }

  // ---- Moving and deleting ------------------------------------------------------------------

  /** Changing the parent of a folder that is not above changes nothing. */
  lemma {:induction false} RootedBeside(m: Parents, id: Id, parent: Option<Id>, x: Id, n: nat)
    requires Rooted(m, x, n) && x != id && forall steps: nat :: !Climbs(m, x, id, steps)
    ensures Rooted(m[id := parent], x, n)
    decreases n
  {
    if m[x].Some? {
      assert !Climbs(m, x, id, 1);
      forall steps: nat ensures !Climbs(m, m[x].value, id, steps) {
        assert !Climbs(m, x, id, steps + 1);
      }
      RootedBeside(m, id, parent, m[x].value, n - 1);
    }
  }

  lemma {:induction false} RootedThrough(m: Parents, id: Id, parent: Option<Id>, x: Id, n: nat, high: nat)
    requires Rooted(m, x, n) && Rooted(m[id := parent], id, high)
    ensures Rooted(m[id := parent], x, n + high)
    decreases n
  {
    var after := m[id := parent];
    if x == id {
      RootedLonger(after, id, high, n + high);
    } else if m[x].Some? {
      RootedThrough(m, id, parent, m[x].value, n - 1, high);
    }
  }

  /** A folder, new or not, can go anywhere but into itself or under itself. */
  lemma PutKeeps(m: Parents, id: Id, parent: Option<Id>)
    requires Forest(m)
    requires parent.Some? ==> parent.value in m && parent.value != id && !Under(m, parent.value, id)
    ensures Forest(m[id := parent])
  {
    var after := m[id := parent];
    var high: nat := 0;
    if parent.Some? {
      var n: nat :| Rooted(m, parent.value, n);
      RootedBeside(m, id, parent, parent.value, n);
      high := n + 1;
    }
    assert Rooted(after, id, high);
    forall x | x in after ensures exists steps: nat :: Rooted(after, x, steps) {
      if x != id {
        var n: nat :| Rooted(m, x, n);
        RootedThrough(m, id, parent, x, n, high);
      }
    }
  }

  /** And into itself or under itself it would be lost. */
  lemma PutUnderLoses(m: Parents, id: Id, parent: Id)
    requires Forest(m) && id in m && parent in m
    requires parent == id || Under(m, parent, id)
    ensures !Forest(m[id := Some(parent)])
  {
    var after := m[id := Some(parent)];
    if Forest(after) {
      var n: nat :| Rooted(after, id, n);
      if parent == id {
        NotUnderItself(after, id, n, 1);
      } else {
        var steps: nat :| Climbs(m, parent, id, steps);
        var fewer := ClimbsStill(m, parent, id, Some(parent), steps);
        NotUnderItself(after, id, n, fewer + 1);
      }
    }
  }

  /** A climb to `id` is a climb there whatever `id`'s own parent is, up to the first time. */
  lemma {:induction false} ClimbsStill(m: Parents, x: Id, id: Id, parent: Option<Id>, steps: nat) returns (fewer: nat)
    requires Climbs(m, x, id, steps) && x != id
    ensures Climbs(m[id := parent], x, id, fewer)
    decreases steps
  {
    if m[x].value == id {
      fewer := 1;
    } else {
      fewer := ClimbsStill(m, m[x].value, id, parent, steps - 1);
      fewer := fewer + 1;
    }
  }

  /** A folder gone, and what was in it in `parent`. */
  function Lifted(m: Parents, id: Id, parent: Option<Id>): Parents {
    map x | x in m && x != id :: if m[x] == Some(id) then parent else m[x]
  }

  /** A folder gone, and what was in it one level up. */
  function Without(m: Parents, id: Id): Parents {
    Lifted(m, id, if id in m then m[id] else None)
  }

  lemma {:induction false} RootedWithout(m: Parents, id: Id, x: Id, n: nat)
    requires Rooted(m, x, n) && x != id && id in m && !Climbs(m, id, id, 1)
    ensures Rooted(Without(m, id), x, n)
    decreases n
  {
    if m[x].Some? {
      var up := m[x].value;
      if up != id {
        RootedWithout(m, id, up, n - 1);
      } else if m[id].Some? {
        RootedLonger(m, m[id].value, n - 2, n - 1);
        RootedWithout(m, id, m[id].value, n - 2);
        RootedLonger(Without(m, id), m[id].value, n - 2, n - 1);
      }
    }
  }

  lemma WithoutKeeps(m: Parents, id: Id)
    requires Forest(m)
    ensures Forest(Without(m, id))
  {
    if id in m {
      var k: nat :| Rooted(m, id, k);
      NotUnderItself(m, id, k, 1);
      forall x | x in Without(m, id) ensures exists steps: nat :: Rooted(Without(m, id), x, steps) {
        var n: nat :| Rooted(m, x, n);
        RootedWithout(m, id, x, n);
      }
    } else {
      forall x | x in m ensures m[x] != Some(id) {
        var n: nat :| Rooted(m, x, n);
        assert m[x] == Some(id) ==> Rooted(m, id, n - 1);
      }
      assert Without(m, id) == m;
    }
  }

  // ---- Looking up ----------------------------------------------------------------------------

  /** The first folder with an id. */
  function Find(folders: seq<Folder>, id: Id): (r: Option<Folder>)
    ensures r.Some? <==> id in Table(folders)
    ensures r.Some? ==> r.value.id == id && r.value.parent == Table(folders)[id]
    decreases |folders|
  {
    if folders == [] then None
    else if folders[0].id == id then Some(folders[0])
    else Find(folders[1..], id)
  }

  /** Where a climb that passed `seen` and has come to `at` ends: nowhere new. */
  ghost predicate Closed(m: Parents, seen: set<Id>, at: Id, ancestor: Id) {
    forall x :: x in seen ==>
      x in m && m[x].Some? && m[x].value != ancestor && (m[x].value in seen || m[x].value == at)
  }

  lemma {:induction false} NeverThere(m: Parents, seen: set<Id>, at: Id, ancestor: Id, x: Id, steps: nat)
    requires Closed(m, seen, at, ancestor) && (x in seen || x == at)
    requires at in seen || at !in m || m[at].None?
    ensures !Climbs(m, x, ancestor, steps)
    decreases steps
  {
    if x in seen && steps > 1 {
      NeverThere(m, seen, at, ancestor, m[x].value, steps - 1);
    }
  }

  function Left(m: Parents, seen: set<Id>): nat {
    |m.Keys - seen|
  }

  lemma FewerLeft(m: Parents, seen: set<Id>, id: Id)
    requires id in m && id !in seen
    ensures Left(m, seen + {id}) < Left(m, seen)
  {
    assert m.Keys - (seen + {id}) == (m.Keys - seen) - {id};
  }

  /** A climb that has come to `at`. */
  predicate Came(m: Parents, id: Id, at: Id, steps: nat) {
    if steps == 0 then at == id else Climbs(m, id, at, steps)
  }

  /** One parent further up, with what has been found so far. */
  lemma StepUp(m: Parents, seen: set<Id>, candidate: Id, at: Id, steps: nat, ancestor: Id)
    requires Closed(m, seen, at, ancestor) && at in m && m[at].Some? && at !in seen
    requires Came(m, candidate, at, steps)
    ensures Came(m, candidate, m[at].value, steps + 1)
    ensures m[at].value == ancestor ==> Under(m, candidate, ancestor)
    ensures m[at].value != ancestor ==> Closed(m, seen + {at}, m[at].value, ancestor)
    ensures Left(m, seen + {at}) < Left(m, seen)
  {
    assert Climbs(m, at, m[at].value, 1);
    if steps > 0 {
      ClimbsOn(m, candidate, at, m[at].value, steps, 1);
    }
    FewerLeft(m, seen, at);
    hide Left;
  }

  lemma TopReached(m: Parents, seen: set<Id>, candidate: Id, at: Id, ancestor: Id)
    requires Closed(m, seen, at, ancestor) && (candidate in seen || at == candidate)
    requires at in seen || at !in m || m[at].None?
    ensures !Under(m, candidate, ancestor)
  {
    forall n: nat ensures !Climbs(m, candidate, ancestor, n) {
      NeverThere(m, seen, at, ancestor, candidate, n);
    }
  }

  /** `isDescendant`: whether `ancestor` is above `candidate`, whatever the data. */
  method IsDescendant(folders: seq<Folder>, candidate: Id, ancestor: Id) returns (under: bool)
    ensures under <==> Under(Table(folders), candidate, ancestor)
  {
    ghost var m := Table(folders);
    ghost var at, steps: nat := candidate, 0;
    var cur := Find(folders, candidate);
    var seen: set<Id> := {};
    assert Closed(m, seen, at, ancestor) && Came(m, candidate, at, steps);
    hide *;
    while cur.Some? && cur.value.parent.Some? && cur.value.id !in seen
      invariant cur == Find(folders, at)
      invariant candidate in seen || at == candidate
      invariant Came(m, candidate, at, steps)
      invariant Closed(m, seen, at, ancestor)
      decreases Left(m, seen)
    {
      StepUp(m, seen, candidate, at, steps, ancestor);
      var up := cur.value.parent.value;
      if up == ancestor {
        return true;
      }
      seen := seen + {cur.value.id};
      cur := Find(folders, up);
      at, steps := up, steps + 1;
    }
    TopReached(m, seen, candidate, at, ancestor);
    return false;
  }

  // ---- The store -----------------------------------------------------------------------------

  predicate Unique(folders: seq<Folder>) {
    forall i, j :: 0 <= i < j < |folders| ==> folders[i].id != folders[j].id
  }

  /** Every session is in a folder there is, or in none. */
  predicate Placed(m: Parents, sessions: seq<Session>) {
    forall i :: 0 <= i < |sessions| ==> sessions[i].folder.Some? ==> sessions[i].folder.value in m
  }

  lemma {:induction false} TableHas(folders: seq<Folder>, i: nat)
    requires i < |folders| && Unique(folders)
    ensures folders[i].id in Table(folders) && Table(folders)[folders[i].id] == folders[i].parent
    decreases |folders|
  {
    if i > 0 {
      assert folders[1..][i - 1] == folders[i];
      TableHas(folders[1..], i - 1);
    }
  }

  lemma {:induction false} TableOnly(folders: seq<Folder>, id: Id) returns (i: nat)
    requires id in Table(folders)
    ensures i < |folders| && folders[i].id == id && folders[i].parent == Table(folders)[id]
    decreases |folders|
  {
    if folders[0].id == id {
      i := 0;
    } else {
      i := TableOnly(folders[1..], id);
      i := i + 1;
    }
  }

  class Store {
    var folders: seq<Folder>
    var sessions: seq<Session>

    /** The folders are a forest, and every session is in it or at the root. */
    ghost predicate Valid()
      reads this
    {
      Unique(folders) && Forest(Table(folders)) && Placed(Table(folders), sessions)
    }

    constructor ()
      ensures Valid() && folders == [] && sessions == []
    {
      folders, sessions := [], [];
    }

    /** `folder_upsert`: written over the folder with its id, or added. */
    method FolderUpsert(folder: Folder)
      requires Unique(folders)
      modifies `folders
      ensures Unique(folders) && Table(folders) == old(Table(folders))[folder.id := folder.parent]
      ensures folder in folders
      ensures forall f :: f in old(folders) && f.id != folder.id ==> f in folders
      ensures |folders| == |old(folders)| + if folder.id in old(Table(folders)) then 0 else 1
    {
      var i := 0;
      while i < |folders| && folders[i].id != folder.id
        invariant 0 <= i <= |folders|
        invariant forall k :: 0 <= k < i ==> folders[k].id != folder.id
      {
        i := i + 1;
      }
      UpsertTable(folders, i, folder);
      ghost var before := folders;
      if i < |folders| {
        TableHas(folders, i);
        folders := folders[i := folder];
        assert folders[i] == folder;
        assert forall k :: 0 <= k < |before| && k != i ==> folders[k] == before[k];
      } else {
        if folder.id in Table(folders) {
          ghost var k := TableOnly(folders, folder.id);
        }
        folders := folders + [folder];
        assert folders[|before|] == folder;
        assert forall k :: 0 <= k < |before| ==> folders[k] == before[k];
      }
    }

    /** `folder_delete`: what was in the folder moves up to its parent, and nothing
        else is lost. */
    method FolderDelete(id: Id)
      requires Valid()
      modifies this
      ensures Valid() && Table(folders) == Without(old(Table(folders)), id)
      ensures |sessions| == |old(sessions)|
      ensures forall k :: 0 <= k < |sessions| ==>
        sessions[k] == old(sessions[k]).(folder := Up(old(Table(folders)), old(sessions[k]).folder, id))
    {
      ghost var m := Table(folders);
      var found := Find(folders, id);
      var parent := if found.Some? then found.value.parent else None;
      var moved: seq<Folder> := [];
      var i := 0;
      assert folders[..0] == [];
      while i < |folders|
        invariant 0 <= i <= |folders|
        invariant folders == old(folders) && sessions == old(sessions)
        invariant moved == Promoted(folders[..i], id, parent)
      {
        var f := folders[i];
        assert folders[..i + 1] == folders[..i] + [f];
        PromotedMore(folders[..i], f, id, parent);
        if f.id != id {
          moved := moved + [if f.parent == Some(id) then f.(parent := parent) else f];
        }
        i := i + 1;
      }
      assert folders[..i] == folders;
      ghost var before := sessions;
      i := 0;
      while i < |sessions|
        invariant 0 <= i <= |sessions| == |before|
        invariant folders == old(folders)
        invariant forall k :: 0 <= k < i ==> sessions[k] == before[k].(folder := Up(m, before[k].folder, id))
        invariant forall k :: i <= k < |sessions| ==> sessions[k] == before[k]
      {
        if sessions[i].folder == Some(id) {
          sessions := sessions[i := sessions[i].(folder := parent)];
        }
        i := i + 1;
      }
      WithoutKeeps(m, id);
      PromotedUnique(folders, id, parent);
      PromotedTable(folders, id, parent);
      UpPlaced(m, before, sessions, id);
      folders := moved;
    }

    /** `sessions_reorder`: the sessions with these ids are in `folder`, in this order. */
    method SessionsReorder(folder: Option<Id>, ids: seq<Id>)
      requires Valid() && (folder.Some? ==> folder.value in Table(folders))
      modifies `sessions
      ensures Valid() && |sessions| == |old(sessions)|
      ensures forall k :: 0 <= k < |sessions| ==> sessions[k].id == old(sessions[k]).id
      ensures forall k :: 0 <= k < |sessions| ==> First(sessions, k) ==>
        if sessions[k].id in ids then
          sessions[k].folder == folder && sessions[k].order.Some? && sessions[k].order.value < |ids|
          && ids[sessions[k].order.value] == sessions[k].id
        else sessions[k] == old(sessions[k])
      ensures forall k :: 0 <= k < |sessions| ==> !First(sessions, k) ==> sessions[k] == old(sessions[k])
    {
      ghost var before := sessions;
      var i := 0;
      while i < |ids|
        invariant 0 <= i <= |ids|
        invariant Ordered(before, sessions, folder, ids, i)
      {
        var k := 0;
        while k < |sessions| && sessions[k].id != ids[i]
          invariant 0 <= k <= |sessions|
          invariant forall j :: 0 <= j < k ==> sessions[j].id != ids[i]
        {
          k := k + 1;
        }
        OrderedMore(before, sessions, folder, ids, i, k);
        if k < |sessions| {
          sessions := sessions[k := sessions[k].(folder := folder, order := Some(i))];
        }
        i := i + 1;
      }
    }

    /** A saved session is added, or written over: in a folder there is. */
    method SessionsUpsert(session: Session)
      requires Valid() && (session.folder.Some? ==> session.folder.value in Table(folders))
      modifies `sessions
      ensures Valid() && |old(sessions)| <= |sessions| <= |old(sessions)| + 1
      ensures |sessions| > |old(sessions)| <==>
              forall k :: 0 <= k < |old(sessions)| ==> old(sessions)[k].id != session.id
      ensures exists i :: 0 <= i < |sessions| && sessions[i] == session && First(sessions, i)
      ensures forall k :: 0 <= k < |old(sessions)| ==>
        if old(sessions)[k].id == session.id && First(old(sessions), k) then sessions[k] == session
        else sessions[k] == old(sessions)[k]
    {
      ghost var before := sessions;
      var i := 0;
      while i < |sessions| && sessions[i].id != session.id
        invariant 0 <= i <= |sessions|
        invariant forall k :: 0 <= k < i ==> sessions[k].id != session.id
      {
        i := i + 1;
      }
      sessions := if i < |sessions| then sessions[i := session] else sessions + [session];
      assert sessions[i] == session && First(sessions, i);
      assert i < |before| ==> before[i].id == session.id && First(before, i);
    }
  }

  lemma {:induction false} UpsertTable(folders: seq<Folder>, i: nat, folder: Folder)
    requires i <= |folders| && forall k :: 0 <= k < i ==> folders[k].id != folder.id
    requires i < |folders| ==> folders[i].id == folder.id
    ensures Table(if i < |folders| then folders[i := folder] else folders + [folder])
         == Table(folders)[folder.id := folder.parent]
    decreases |folders|
  {
    var after := if i < |folders| then folders[i := folder] else folders + [folder];
    if i == 0 {
      assert folders != [] ==> after[1..] == folders[1..];
      assert folders == [] ==> after[1..] == [];
    } else {
      UpsertTable(folders[1..], i - 1, folder);
      assert after[1..] == if i < |folders| then folders[1..][i - 1 := folder] else folders[1..] + [folder];
    }
  }

  /** A session's folder once folder `id` is gone. */
  function Up(m: Parents, folder: Option<Id>, id: Id): Option<Id> {
    if folder == Some(id) then (if id in m then m[id] else None) else folder
  }

  lemma UpPlaced(m: Parents, before: seq<Session>, after: seq<Session>, id: Id)
    requires Forest(m) && Placed(m, before) && |after| == |before|
    requires forall k :: 0 <= k < |before| ==> after[k] == before[k].(folder := Up(m, before[k].folder, id))
    ensures Placed(Without(m, id), after)
  {
    forall k | 0 <= k < |after| ensures after[k].folder.Some? ==> after[k].folder.value in Without(m, id) {
      assert before[k].folder.Some? ==> before[k].folder.value in m;
      if before[k].folder == Some(id) && m[id].Some? {
        var n: nat :| Rooted(m, id, n);
        NotUnderItself(m, id, n, 1);
        assert Rooted(m, m[id].value, n - 1);
      }
    }
  }

  /** The folders left, their parents moved up. */
  function Promoted(folders: seq<Folder>, id: Id, parent: Option<Id>): seq<Folder>
    decreases |folders|
  {
    if folders == [] then []
    else
      var f := folders[0];
      (if f.id == id then [] else [if f.parent == Some(id) then f.(parent := parent) else f])
      + Promoted(folders[1..], id, parent)
  }

  lemma {:induction false} PromotedMore(folders: seq<Folder>, f: Folder, id: Id, parent: Option<Id>)
    ensures Promoted(folders + [f], id, parent)
         == Promoted(folders, id, parent)
            + if f.id == id then [] else [if f.parent == Some(id) then f.(parent := parent) else f]
    decreases |folders|
  {
    if folders == [] {
      assert [f][1..] == [];
    } else {
      assert (folders + [f])[1..] == folders[1..] + [f];
      PromotedMore(folders[1..], f, id, parent);
    }
  }

  lemma {:induction false} PromotedIn(folders: seq<Folder>, id: Id, parent: Option<Id>, g: Folder)
    requires g in Promoted(folders, id, parent)
    ensures g.id != id && exists i :: 0 <= i < |folders| && folders[i].id == g.id
    decreases |folders|
  {
    var f := folders[0];
    if g in Promoted(folders[1..], id, parent) {
      PromotedIn(folders[1..], id, parent, g);
      var i :| 0 <= i < |folders[1..]| && folders[1..][i].id == g.id;
      assert folders[i + 1].id == g.id;
    } else {
      assert folders[0].id == g.id;
    }
  }

  lemma LiftedPut(m: Parents, id: Id, parent: Option<Id>, k: Id, p: Option<Id>)
    ensures Lifted(m[k := p], id, parent)
         == if k == id then Lifted(m, id, parent) else Lifted(m, id, parent)[k := if p == Some(id) then parent else p]
  {
  }

  lemma {:induction false} PromotedUnique(folders: seq<Folder>, id: Id, parent: Option<Id>)
    requires Unique(folders)
    ensures Unique(Promoted(folders, id, parent))
    decreases |folders|
  {
    if folders != [] {
      var f, rest := folders[0], folders[1..];
      PromotedUnique(rest, id, parent);
      var after := Promoted(folders, id, parent);
      if f.id == id {
        assert after == Promoted(rest, id, parent);
      } else {
        assert after[1..] == Promoted(rest, id, parent);
        forall j | 0 < j < |after| ensures after[j].id != f.id {
          assert after[j] == after[1..][j - 1];
          PromotedIn(rest, id, parent, after[j]);
        }
      }
    }
  }

  lemma {:induction false} PromotedTable(folders: seq<Folder>, id: Id, parent: Option<Id>)
    ensures Table(Promoted(folders, id, parent)) == Lifted(Table(folders), id, parent)
    decreases |folders|
  {
    if folders != [] {
      var f, rest := folders[0], folders[1..];
      PromotedTable(rest, id, parent);
      LiftedPut(Table(rest), id, parent, f.id, f.parent);
      var after, tail := Promoted(folders, id, parent), Promoted(rest, id, parent);
      if f.id == id {
        assert after == tail;
      } else {
        var g := if f.parent == Some(id) then f.(parent := parent) else f;
        assert after == [g] + tail;
        assert after[1..] == tail;
      }
      hide Lifted;
      hide Promoted;
    }
  }

  /** The first session with its id. */
  predicate First(sessions: seq<Session>, k: nat)
    requires k < |sessions|
  {
    forall j :: 0 <= j < k ==> sessions[j].id != sessions[k].id
  }

  /** The first `i` ids have been put in their places. */
  ghost predicate Ordered(before: seq<Session>, after: seq<Session>, folder: Option<Id>, ids: seq<Id>, i: nat)
    requires i <= |ids|
  {
    && |after| == |before|
    && forall k :: 0 <= k < |after| ==>
         && after[k].id == before[k].id
         && if First(after, k) && after[k].id in ids[..i] then
              after[k].folder == folder && after[k].order.Some? && after[k].order.value < i
              && ids[after[k].order.value] == after[k].id
            else after[k] == before[k]
  }

  lemma OrderedMore(before: seq<Session>, after: seq<Session>, folder: Option<Id>, ids: seq<Id>, i: nat, k: nat)
    requires i < |ids| && Ordered(before, after, folder, ids, i)
    requires k <= |after| && (forall j :: 0 <= j < k ==> after[j].id != ids[i])
    requires k < |after| ==> after[k].id == ids[i]
    ensures Ordered(before, if k < |after| then after[k := after[k].(folder := folder, order := Some(i))] else after,
                    folder, ids, i + 1)
  {
    var next := if k < |after| then after[k := after[k].(folder := folder, order := Some(i))] else after;
    assert ids[..i + 1] == ids[..i] + [ids[i]];
    forall j | 0 <= j < |next| ensures First(next, j) == First(after, j) {
    }
  }

  // ---- What the panel does -------------------------------------------------------------------

  /** `newFolder`. */
  method NewFolder(store: Store, id: Id, name: string, parent: Option<Id>)
    requires store.Valid() && id !in Table(store.folders)
    requires parent.Some? ==> parent.value in Table(store.folders)
    modifies store
    ensures store.Valid() && store.sessions == old(store.sessions)
    ensures Table(store.folders) == old(Table(store.folders))[id := parent]
  {
    PutAnywhere(Table(store.folders), id, parent);
    StillPlaced(Table(store.folders), store.sessions, id, parent);
    hide Forest;
    hide Placed;
    store.FolderUpsert(Folder(id, name, parent));
  }

  lemma PutAnywhere(m: Parents, id: Id, parent: Option<Id>)
    requires Forest(m) && id !in m && (parent.Some? ==> parent.value in m)
    ensures Forest(m[id := parent])
  {
    if parent.Some? {
      forall n: nat ensures !Climbs(m, parent.value, id, n) {
        if Climbs(m, parent.value, id, n) {
          var k: nat :| Rooted(m, parent.value, k);
          RootedAbove(m, parent.value, id, n, k);
        }
      }
    }
    PutKeeps(m, id, parent);
  }

  lemma StillPlaced(m: Parents, sessions: seq<Session>, id: Id, parent: Option<Id>)
    requires Placed(m, sessions)
    ensures Placed(m[id := parent], sessions)
  {
  }

  /** `handleDrop` of a folder: it moves just when that keeps the forest one. */
  method MoveFolder(store: Store, id: Id, target: Option<Id>) returns (moved: bool)
    requires store.Valid() && (target.Some? ==> target.value in Table(store.folders))
    modifies store
    ensures store.Valid() && store.sessions == old(store.sessions)
    ensures var m := old(Table(store.folders));
      && (moved <==> id in m && m[id] != target && Forest(m[id := target]))
      && Table(store.folders) == if moved then m[id := target] else m
  {
    ghost var m := Table(store.folders);
    if target == Some(id) {
      if id in m {
        PutUnderLoses(m, id, id);
      }
      return false;
    }
    if target.Some? {
      var under := IsDescendant(store.folders, target.value, id);
      if under {
        if id in m {
          PutUnderLoses(m, id, target.value);
        }
        return false;
      }
    }
    var found := Find(store.folders, id);
    if found.None? || found.value.parent == target {
      return false;
    }
    PutKeeps(m, id, target);
    StillPlaced(m, store.sessions, id, target);
    hide Forest;
    hide Placed;
    store.FolderUpsert(found.value.(parent := target));
    return true;
  }

  // ---- Counting what is below ------------------------------------------------------------------

  /** In `folder`, or somewhere in it. */
  ghost predicate In(m: Parents, place: Option<Id>, folder: Id) {
    place.Some? && (place.value == folder || Under(m, place.value, folder))
  }

  /** The sessions in `folder` and in what it holds. */
  ghost function Below(m: Parents, sessions: seq<Session>, folder: Id): set<nat> {
    set k: nat | k < |sessions| && In(m, sessions[k].folder, folder)
  }

  function ChildFolders(folders: seq<Folder>, parent: Id): seq<Folder>
    decreases |folders|
  {
    if folders == [] then []
    else (if folders[0].parent == Some(parent) then [folders[0]] else []) + ChildFolders(folders[1..], parent)
  }

  function ChildSessions(sessions: seq<Session>, folder: Id): nat
    decreases |sessions|
  {
    if sessions == [] then 0
    else
      ChildSessions(sessions[..|sessions| - 1], folder)
      + if sessions[|sessions| - 1].folder == Some(folder) then 1 else 0
  }

  /** What is under a folder is one of its own, or under one. */
  lemma {:induction false} LastStep(m: Parents, id: Id, folder: Id, steps: nat) returns (child: Id)
    requires Climbs(m, id, folder, steps)
    ensures child in m && m[child] == Some(folder)
    ensures id == child || Under(m, id, child)
    decreases steps
  {
    if steps == 1 {
      child := id;
    } else {
      var up := m[id].value;
      child := LastStep(m, up, folder, steps - 1);
      assert Climbs(m, id, up, 1);
      if up != child {
        var n: nat :| Climbs(m, up, child, n);
        ClimbsOn(m, id, up, child, 1, n);
      }
    }
  }

  lemma {:induction false} OneAbove(m: Parents, id: Id, a: Id, b: Id, few: nat, many: nat)
    requires Climbs(m, id, a, few) && Climbs(m, id, b, many) && few <= many
    ensures if few == many then a == b else Climbs(m, a, b, many - few)
    decreases few
  {
    if few > 1 {
      OneAbove(m, m[id].value, a, b, few - 1, many - 1);
    }
  }

  /** In a folder that is not under itself, nothing is in two of its own. */
  lemma NotInTwo(m: Parents, folder: Id, a: Id, b: Id, place: Option<Id>)
    requires !Under(m, folder, folder) && a in m && b in m && m[a] == m[b] == Some(folder)
    requires In(m, place, a) && In(m, place, b)
    ensures a == b
  {
    if a != b {
      assert Climbs(m, a, folder, 1) && Climbs(m, b, folder, 1);
      var id := place.value;
      if id == a {
        var y: nat :| Climbs(m, id, b, y);
        NotAbove(m, folder, a, b, y);
      } else if id == b {
        var x: nat :| Climbs(m, id, a, x);
        NotAbove(m, folder, b, a, x);
      } else {
        var x: nat :| Climbs(m, id, a, x);
        var y: nat :| Climbs(m, id, b, y);
        if x <= y {
          OneAbove(m, id, a, b, x, y);
          NotAbove(m, folder, a, b, y - x);
        } else {
          OneAbove(m, id, b, a, y, x);
          NotAbove(m, folder, b, a, x - y);
        }
      }
    }
  }

  /** Nor is one of its own under another. */
  lemma NotAbove(m: Parents, folder: Id, a: Id, b: Id, steps: nat)
    requires !Under(m, folder, folder) && a in m && b in m && m[a] == m[b] == Some(folder)
    ensures !Climbs(m, a, b, steps)
  {
    assert Climbs(m, b, folder, 1);
    if Climbs(m, a, b, steps) && steps > 1 {
      ClimbsOn(m, folder, b, folder, steps - 1, 1);
    }
  }

  /** Nor is the folder itself in one of its own. */
  lemma NotInOwn(m: Parents, folder: Id, child: Id)
    requires !Under(m, folder, folder) && child in m && m[child] == Some(folder)
    ensures !In(m, Some(folder), child)
  {
    assert Climbs(m, child, folder, 1);
    if folder != child && Under(m, folder, child) {
      var x: nat :| Climbs(m, folder, child, x);
      ClimbsOn(m, folder, child, folder, x, 1);
    }
  }

  /** The sessions in `folder` itself, and below the first children. */
  ghost function Part(m: Parents, sessions: seq<Session>, folder: Id, children: seq<Folder>): set<nat> {
    set k: nat | k < |sessions| &&
      (sessions[k].folder == Some(folder)
       || exists i :: 0 <= i < |children| && In(m, sessions[k].folder, children[i].id))
  }

  ghost predicate ChildrenOf(m: Parents, folder: Id, children: seq<Folder>) {
    && (forall i :: 0 <= i < |children| ==> children[i].id in m && m[children[i].id] == Some(folder))
    && (forall i, j :: 0 <= i < j < |children| ==> children[i].id != children[j].id)
  }

  /** One more child, and its sessions come on top. */
  lemma PartGrows(m: Parents, sessions: seq<Session>, folder: Id, children: seq<Folder>, i: nat)
    requires !Under(m, folder, folder) && ChildrenOf(m, folder, children) && i < |children|
    ensures Part(m, sessions, folder, children[..i + 1])
         == Part(m, sessions, folder, children[..i]) + Below(m, sessions, children[i].id)
    ensures Part(m, sessions, folder, children[..i]) !! Below(m, sessions, children[i].id)
  {
    var less, more, child := children[..i], children[..i + 1], children[i].id;
    assert more == less + [children[i]];
    hide In;
    forall k: nat | k < |sessions| && k in Below(m, sessions, child) ensures k !in Part(m, sessions, folder, less) {
      if sessions[k].folder == Some(folder) {
        NotInOwn(m, folder, child);
      }
      forall j | 0 <= j < i ensures !In(m, sessions[k].folder, less[j].id) {
        if In(m, sessions[k].folder, less[j].id) {
          NotInTwo(m, folder, less[j].id, child, sessions[k].folder);
        }
      }
    }
  }

  lemma PartWhole(m: Parents, sessions: seq<Session>, folder: Id, children: seq<Folder>)
    requires ChildrenOf(m, folder, children)
    requires forall id :: id in m && m[id] == Some(folder) ==> exists i :: 0 <= i < |children| && children[i].id == id
    ensures Part(m, sessions, folder, children) == Below(m, sessions, folder)
  {
    forall k: nat | k < |sessions|
      ensures k in Part(m, sessions, folder, children) <==> k in Below(m, sessions, folder)
    {
      var place := sessions[k].folder;
      if In(m, place, folder) && place != Some(folder) {
        var steps: nat :| Climbs(m, place.value, folder, steps);
        var child := LastStep(m, place.value, folder, steps);
        var i :| 0 <= i < |children| && children[i].id == child;
        assert In(m, place, children[i].id);
      }
      if k in Part(m, sessions, folder, children) && place != Some(folder) {
        var i :| 0 <= i < |children| && In(m, place, children[i].id);
        var child := children[i].id;
        assert Climbs(m, child, folder, 1);
        if place.value != child {
          var steps: nat :| Climbs(m, place.value, child, steps);
          ClimbsOn(m, place.value, child, folder, steps, 1);
        }
      }
    }
  }

  lemma {:induction false} ChildFoldersAre(folders: seq<Folder>, parent: Id)
    requires Unique(folders)
    ensures forall f :: f in ChildFolders(folders, parent) <==> f in folders && f.parent == Some(parent)
    ensures Unique(ChildFolders(folders, parent))
    decreases |folders|
  {
    if folders != [] {
      ChildFoldersAre(folders[1..], parent);
      var rest, all := ChildFolders(folders[1..], parent), ChildFolders(folders, parent);
      if folders[0].parent == Some(parent) {
        assert all == [folders[0]] + rest;
        forall j | 0 < j < |all| ensures all[j].id != all[0].id {
          assert all[j] == rest[j - 1] && all[j] in folders[1..];
        }
      } else {
        assert all == rest;
      }
    }
  }

  lemma ChildrenFit(folders: seq<Folder>, folder: Id)
    requires Unique(folders)
    ensures var children := ChildFolders(folders, folder);
      && ChildrenOf(Table(folders), folder, children)
      && forall id :: id in Table(folders) && Table(folders)[id] == Some(folder) ==>
           exists i :: 0 <= i < |children| && children[i].id == id
  {
    var m, children := Table(folders), ChildFolders(folders, folder);
    ChildFoldersAre(folders, folder);
    forall i | 0 <= i < |children| ensures children[i].id in m && m[children[i].id] == Some(folder) {
      assert children[i] in children;
      var k :| 0 <= k < |folders| && folders[k] == children[i];
      TableHas(folders, k);
    }
    forall id | id in m && m[id] == Some(folder) ensures exists i :: 0 <= i < |children| && children[i].id == id {
      var k := TableOnly(folders, id);
      assert folders[k] in children;
    }
  }

  lemma {:induction false} CountDirect(m: Parents, sessions: seq<Session>, folder: Id)
    ensures ChildSessions(sessions, folder) == |Part(m, sessions, folder, [])|
    decreases |sessions|
  {
    if sessions != [] {
      var last := |sessions| - 1;
      CountDirect(m, sessions[..last], folder);
      var part, before := Part(m, sessions, folder, []), Part(m, sessions[..last], folder, []);
      assert part == if sessions[last].folder == Some(folder) then before + {last} else before;
    } else {
      assert Part(m, sessions, folder, []) == {};
    }
  }

  /** What is under a folder. */
  ghost function Inside(m: Parents, folder: Id): set<Id> {
    set id | id in m && Under(m, id, folder)
  }

  ghost function Size(m: Parents, folder: Id): nat {
    |Inside(m, folder)|
  }

  lemma FirstStep(m: Parents, id: Id, above: Id, steps: nat)
    ensures Climbs(m, id, above, steps) ==> In(m, m[id], above)
  {
    assert steps > 1 && Climbs(m, id, above, steps) ==> Climbs(m, m[id].value, above, steps - 1);
  }

  /** A child holds less than its folder, and isn't under itself either. */
  lemma ChildSmaller(m: Parents, folder: Id, child: Id)
    requires !Under(m, folder, folder) && child in m && m[child] == Some(folder)
    ensures !Under(m, child, child) && Size(m, child) < Size(m, folder)
  {
    assert Climbs(m, child, folder, 1);
    var less, more := Inside(m, child), Inside(m, folder);
    forall id | id in less ensures id in more {
      var steps: nat :| Climbs(m, id, child, steps);
      ClimbsOn(m, id, child, folder, steps, 1);
    }
    NotInOwn(m, folder, child);
    forall steps: nat ensures Climbs(m, child, child, steps) ==> In(m, Some(folder), child) {
      FirstStep(m, child, child, steps);
    }
    assert child in more && child !in less;
    Smaller(less, more);
  }

  /** A folder under itself has a child under itself: counting would never end. */
  lemma NeverEnds(folders: seq<Folder>, folder: Id)
    requires Unique(folders) && Under(Table(folders), folder, folder)
    ensures exists f :: f in ChildFolders(folders, folder) && Under(Table(folders), f.id, f.id)
  {
    var m := Table(folders);
    var steps: nat :| Climbs(m, folder, folder, steps);
    var child := LastStep(m, folder, folder, steps);
    assert Climbs(m, child, folder, 1);
    if child != folder {
      var n: nat :| Climbs(m, folder, child, n);
      ClimbsOn(m, child, folder, child, 1, n);
    }
    ChildrenFit(folders, folder);
    var i :| 0 <= i < |ChildFolders(folders, folder)| && ChildFolders(folders, folder)[i].id == child;
    assert ChildFolders(folders, folder)[i] in ChildFolders(folders, folder);
  }

  lemma Smaller<T>(less: set<T>, more: set<T>)
    requires less < more
    ensures |less| < |more|
  {
    assert more == less + (more - less);
    assert more - less != {};
  }

  ghost function SizeOf(s: set<nat>): nat {
    |s|
  }

  /** The direct sessions, and nothing of the children yet. */
  lemma NoChildYet(m: Parents, sessions: seq<Session>, folder: Id, children: seq<Folder>)
    ensures ChildSessions(sessions, folder) == SizeOf(Part(m, sessions, folder, children[..0]))
  {
    CountDirect(m, sessions, folder);
    assert children[..0] == [];
  }

  /** Another child's sessions on top, and it holds less than the folder. */
  lemma OneMoreChild(m: Parents, sessions: seq<Session>, folder: Id, children: seq<Folder>, i: nat)
    requires !Under(m, folder, folder) && ChildrenOf(m, folder, children) && i < |children|
    ensures var child := children[i].id;
      && !Under(m, child, child) && Size(m, child) < Size(m, folder)
      && SizeOf(Part(m, sessions, folder, children[..i + 1]))
         == SizeOf(Part(m, sessions, folder, children[..i])) + |Below(m, sessions, child)|
  {
    PartGrows(m, sessions, folder, children, i);
    assert children[i].id in m && m[children[i].id] == Some(folder);
    ChildSmaller(m, folder, children[i].id);
    hide Part;
    hide Below;
    hide Under;
    hide Size;
    OnTop(Part(m, sessions, folder, children[..i]), Below(m, sessions, children[i].id));
  }

  lemma OnTop(a: set<nat>, b: set<nat>)
    requires a !! b
    ensures SizeOf(a + b) == SizeOf(a) + |b|
  {
  }

  lemma AllChildren(m: Parents, sessions: seq<Session>, folder: Id, children: seq<Folder>)
    requires ChildrenOf(m, folder, children)
    requires forall id :: id in m && m[id] == Some(folder) ==> exists i :: 0 <= i < |children| && children[i].id == id
    ensures SizeOf(Part(m, sessions, folder, children[..|children|])) == |Below(m, sessions, folder)|
  {
    PartWhole(m, sessions, folder, children);
    assert children[..|children|] == children;
    hide Part;
    hide Below;
  }

  /** `descendantCount`: the sessions in a folder and in everything it holds; it ends
      unless the folder is under itself. */
  method DescendantCount(folders: seq<Folder>, sessions: seq<Session>, folder: Id) returns (count: nat)
    requires Unique(folders) && !Under(Table(folders), folder, folder)
    ensures count == |Below(Table(folders), sessions, folder)|
    decreases Size(Table(folders), folder)
  {
    hide *;
    ghost var m := Table(folders);
    var children := ChildFolders(folders, folder);
    ChildrenFit(folders, folder);
    NoChildYet(m, sessions, folder, children);
    AllChildren(m, sessions, folder, children);
    count := ChildSessions(sessions, folder);
    var i := 0;
    while i < |children|
      invariant 0 <= i <= |children|
      invariant count == SizeOf(Part(m, sessions, folder, children[..i]))
    {
      OneMoreChild(m, sessions, folder, children, i);
      var more := DescendantCount(folders, sessions, children[i].id);
      count, i := count + more, i + 1;
    }
  }
}
