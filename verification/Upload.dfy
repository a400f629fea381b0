/** Uploading an edited copy over the server's file (src-tauri/src/edit.rs,
    `upload`): the steps as the source takes them, over a server on which any of
    them may fail. Failures are chosen freely (`:= *`), so what is ensured holds
    whatever the server does. Nobody else changes these files meanwhile. */
module UploadEffects {
  import opened Basics

  type Path = string

  datatype Node =
    | File(bytes: seq<byte>, mode: nat, owner: string, group: string)
    | Folder
    | Link(target: Path)

  type Tree = map<Path, Node>

  /** Where a path leads (a link is followed; it doesn't lead to another). */
  function Resolve(tree: Tree, path: Path): Path {
    if path in tree && tree[path].Link? then tree[path].target else path
  }

  /** What reading the path finds. */
  function Content(tree: Tree, path: Path): Option<seq<byte>> {
    var at := Resolve(tree, path);
    if at in tree && tree[at].File? then Some(tree[at].bytes) else None
  }

  /** Mode, owner and group of the file to replace, where known. */
  datatype Original = Original(mode: Option<nat>, owner: Option<string>, group: Option<string>) {
    predicate Describes(node: Node) {
      && node.File?
      && (mode.Some? ==> node.mode == mode.value)
      && (owner.Some? ==> node.owner == owner.value)
      && (group.Some? ==> node.group == group.value)
    }

    predicate Owns(node: Node) {
      node.File? && (owner.Some? ==> node.owner == owner.value) && (group.Some? ==> node.group == group.value)
    }
  }

  datatype OpenResult = Opened | PermissionDenied | OpenFailed

  /** An upload's end; on an error, whether the file or a leftover may show it. */
  datatype Result = Ok | Err(touched: bool, leftover: bool)

  datatype Route = Staged | InPlace

  /** Only the bytes of the file at `path` differ. */
  ghost predicate OnlyBytes(before: Tree, after: Tree, path: Path) {
    && path in before && before[path].File?
    && path in after && after[path].File?
    && after == before[path := before[path].(bytes := after[path].bytes)]
  }

  /** What the server answered, request by request. */
  datatype Said =
    | Status(path: Path, node: Option<Node>)
    | New(path: Path, result: OpenResult)
    | Mode(path: Path, ok: bool)
    | Sent(path: Path, ok: bool)
    | Moved(from: Path, to: Path, ok: bool)
    | Emptied(path: Path, ok: bool)
    | Removed(path: Path, ok: bool)

  /** The server's files, every state they went through, and every answer. A healthy one
      does all it is asked that can be done, its new files `owner`'s and `group`'s. */
  class Server {
    const healthy: bool
    const owner: string
    const group: string
    var nodes: Tree
    ghost var history: seq<Tree>
    ghost var said: seq<Said>

    constructor (nodes: Tree, healthy: bool, owner: string, group: string)
      ensures this.nodes == nodes && this.healthy == healthy && this.owner == owner && this.group == group
      ensures history == [nodes] && said == []
    {
      this.nodes, this.healthy, this.owner, this.group := nodes, healthy, owner, group;
      this.history, this.said := [nodes], [];
    }

    /** Its new files are the user's and the group's that the file is. */
    predicate Suits(original: Original) {
      && (original.owner.Some? ==> original.owner.value == owner)
      && (original.group.Some? ==> original.group.value == group)
    }

    /** `open_write(CreateNew)`: a failed open changes nothing. */
    method OpenNew(path: Path) returns (result: OpenResult)
      modifies this
      ensures !result.Opened? ==> nodes == old(nodes) && history == old(history)
      ensures result.Opened? ==>
                && path !in old(nodes) && path in nodes && nodes[path].File? && nodes[path].bytes == []
                && nodes == old(nodes)[path := nodes[path]] && history == old(history) + [nodes]
      ensures healthy && path !in old(nodes) ==>
                result.Opened? && nodes[path].owner == owner && nodes[path].group == group
      ensures said == old(said) + [New(path, result)]
    {
      result := *;
      if healthy {
        result := Opened;
      }
      if path in nodes && result == Opened {
        result := OpenFailed;
      }
      if result == Opened {
        var mode: nat, whose: string, group: string := *, *, *;
        if healthy {
          whose, group := owner, this.group;
        }
        nodes := nodes[path := File([], mode, whose, group)];
        history := history + [nodes];
      }
      said := said + [New(path, result)];
    }

    /** `open_write(Truncate)`: empties the file, or makes a new one. */
    method Truncate(path: Path) returns (ok: bool)
      modifies this
      ensures !ok ==> nodes == old(nodes) && history == old(history)
      ensures ok ==>
                var at := Resolve(old(nodes), path);
                && at in nodes && nodes[at].File? && nodes[at].bytes == []
                && nodes == old(nodes)[at := nodes[at]] && history == old(history) + [nodes]
                && (at in old(nodes) ==> OnlyBytes(old(nodes), nodes, at))
      ensures var at := Resolve(old(nodes), path);
        healthy && (at in old(nodes) ==> old(nodes[at]).File?) ==> ok
      ensures said == old(said) + [Emptied(path, ok)]
    {
      ok := *;
      ok := ok || healthy;
      var at := Resolve(nodes, path);
      if at in nodes && !nodes[at].File? {
        ok := false;
      }
      if ok {
        if at in nodes {
          nodes := nodes[at := nodes[at].(bytes := [])];
        } else {
          var mode: nat, owner: string, group: string := *, *, *;
          nodes := nodes[at := File([], mode, owner, group)];
        }
        history := history + [nodes];
      }
      said := said + [Emptied(path, ok)];
    }

    /** Writes a block; a failed write may have written part of it. */
    method Append(at: Path, block: seq<byte>) returns (ok: bool)
      requires at in nodes && nodes[at].File?
      modifies this`nodes, this`history
      ensures OnlyBytes(old(nodes), nodes, at) && history == old(history) + [nodes]
      ensures ok ==> nodes[at].bytes == old(nodes[at].bytes) + block
      ensures healthy ==> ok
    {
      ok := *;
      ok := ok || healthy;
      var written :| 0 <= written <= |block|;
      if ok {
        written := |block|;
      }
      assert block[..|block|] == block;
      nodes := nodes[at := nodes[at].(bytes := nodes[at].bytes + block[..written])];
      history := history + [nodes];
    }

    /** `set_mode`: on failure the mode may or may not have been set. */
    method SetMode(path: Path, mode: nat) returns (ok: bool)
      requires path in nodes && nodes[path].File?
      modifies this
      ensures path in nodes && nodes[path].File?
      ensures nodes == old(nodes)[path := old(nodes[path]).(mode := nodes[path].mode)]
      ensures history == old(history) + [nodes]
      ensures ok ==> nodes[path].mode == mode
      ensures healthy ==> ok
      ensures said == old(said) + [Mode(path, ok)]
    {
      ok := *;
      ok := ok || healthy;
      var landed: bool := *;
      if ok || landed {
        nodes := nodes[path := nodes[path].(mode := mode)];
      }
      history := history + [nodes];
      said := said + [Mode(path, ok)];
    }

    method Lstat(path: Path) returns (node: Option<Node>)
      modifies this`said
      ensures node.Some? ==> path in nodes && node.value == nodes[path]
      ensures healthy && path in nodes ==> node.Some?
      ensures said == old(said) + [Status(path, node)]
    {
      var ok: bool := *;
      node := if (ok || healthy) && path in nodes then Some(nodes[path]) else None;
      said := said + [Status(path, node)];
    }

    /** `rename` over `to`; a failed one may have landed all the same. */
    method Rename(from: Path, to: Path) returns (ok: bool)
      requires from in nodes && nodes[from].File? && from != to
      modifies this
      ensures ok ==> nodes == old(nodes)[to := old(nodes[from])] - {from}
      ensures !ok ==> nodes == old(nodes) || nodes == old(nodes)[to := old(nodes[from])] - {from}
      ensures history == old(history) + [nodes]
      ensures to in old(nodes) && old(nodes[to]).Folder? ==> nodes == old(nodes)
      ensures healthy && !(to in old(nodes) && old(nodes[to]).Folder?) ==> ok
      ensures said == old(said) + [Moved(from, to, ok)]
    {
      ok := *;
      ok := ok || healthy;
      var landed: bool := *;
      if to in nodes && nodes[to].Folder? {
        ok, landed := false, false;
      }
      if ok || landed {
        nodes := nodes[to := nodes[from]] - {from};
      }
      history := history + [nodes];
      said := said + [Moved(from, to, ok)];
    }

    /** `left_behind`: removes the temporary; true when that failed. */
    method LeftBehind(temporary: Path) returns (left: bool)
      modifies this
      ensures nodes == old(nodes) || nodes == old(nodes) - {temporary}
      ensures history == old(history) + [nodes]
      ensures !left ==> temporary !in nodes
      ensures said == old(said) + [Removed(temporary, !left)]
    {
      left := *;
      if !left {
        nodes := nodes - {temporary};
      }
      history := history + [nodes];
      said := said + [Removed(temporary, !left)];
    }

    /** `send_file`: the copy's bytes in blocks, then the close; any of it may
        fail, with any part written. */
    method SendFile(local: seq<byte>, at: Path) returns (ok: bool)
      requires at in nodes && nodes[at].File? && nodes[at].bytes == []
      modifies this
      ensures OnlyBytes(old(nodes), nodes, at)
      ensures old(history) <= history
      ensures forall i :: |old(history)| <= i < |history| ==> OnlyBytes(old(nodes), history[i], at)
      ensures ok ==> nodes[at].bytes == local
      ensures healthy ==> ok
      ensures said == old(said) + [Sent(at, ok)]
    {
      var sent := 0;
      while sent < |local|
        invariant 0 <= sent <= |local|
        invariant OnlyBytes(old(nodes), nodes, at) && nodes[at].bytes == local[..sent]
        invariant old(history) <= history
        invariant forall i :: |old(history)| <= i < |history| ==> OnlyBytes(old(nodes), history[i], at)
        invariant said == old(said)
      {
        var readable: bool := *;
        if !readable && !healthy {
          said := said + [Sent(at, false)];
          return false;
        }
        var count :| 1 <= count <= |local| - sent;
        var written := Append(at, local[sent..sent + count]);
        if !written {
          said := said + [Sent(at, false)];
          return false;
        }
        assert local[..sent] + local[sent..sent + count] == local[..sent + count];
        sent := sent + count;
      }
      assert local[..sent] == local;
      ok := *;
      ok := ok || healthy;
      said := said + [Sent(at, ok)];
    }
  }

  // ---- What the answers mean for an upload ----------------------------------------------

  /** Staging is out: no new file may be made in the folder, or the new one can't be given
      the file's mode, or isn't its owner's or group's. */
  predicate RulesOut(answer: Said, names: Names, original: Original) {
    match answer
    case New(path, result) => path == names.temporary && result.PermissionDenied?
    case Mode(path, ok) => path == names.temporary && !ok
    case Status(path, node) => path == names.temporary && !(node.Some? && original.Owns(node.value))
    case _ => false
  }

  ghost predicate RuledOut(said: seq<Said>, names: Names, original: Original) {
    exists i :: 0 <= i < |said| && RulesOut(said[i], names, original)
  }

  predicate SaysLink(answer: Said) {
    answer.Status? && answer.node.Some? && answer.node.value.Link?
  }

  /** The upload can't go through, or may not have. */
  predicate Fails(answer: Said, names: Names) {
    match answer
    case New(_, result) => result.OpenFailed?
    case Sent(_, ok) => !ok
    case Moved(_, _, ok) => !ok
    case Emptied(_, ok) => !ok
    case Status(path, node) => path == names.remote && node.Some? && node.value.Folder?
    case _ => false
  }

  ghost predicate Failed(said: seq<Said>, names: Names) {
    exists i :: 0 <= i < |said| && Fails(said[i], names)
  }

  /** From here on the file may not be the old one. */
  predicate Touches(answer: Said) {
    match answer
    case Moved(_, _, ok) => !ok
    case Emptied(_, ok) => ok
    case _ => false
  }

  ghost predicate Touched(said: seq<Said>) {
    exists i :: 0 <= i < |said| && Touches(said[i])
  }

  lemma NothingSaid(names: Names, original: Original)
    ensures !RuledOut([], names, original) && !Failed([], names) && !Touched([])
  {
  }

  /** One answer after others. */
  lemma SaidNext(a: seq<Said>, x: Said, names: Names, original: Original)
    ensures RuledOut(a + [x], names, original) <==> RuledOut(a, names, original) || RulesOut(x, names, original)
    ensures Failed(a + [x], names) <==> Failed(a, names) || Fails(x, names)
    ensures Touched(a + [x]) <==> Touched(a) || Touches(x)
  {
    hide RulesOut;
    hide Fails;
    hide Touches;
    var all := a + [x];
    assert all[|a|] == x && forall i :: 0 <= i < |a| ==> all[i] == a[i];
  }

  /** Answers after others. */
  lemma SaidAfter(a: seq<Said>, b: seq<Said>, names: Names, original: Original)
    ensures RuledOut(a + b, names, original) <==> RuledOut(a, names, original) || RuledOut(b, names, original)
    ensures Failed(a + b, names) <==> Failed(a, names) || Failed(b, names)
    ensures Touched(a + b) <==> Touched(a) || Touched(b)
  {
    hide RulesOut;
    hide Fails;
    hide Touches;
    var all := a + b;
    assert forall i :: 0 <= i < |a| ==> all[i] == a[i];
    assert forall i :: 0 <= i < |b| ==> all[|a| + i] == b[i];
  }

  /** The route, the error and what it says come from the answers: first whether the file
      is a link, then whether staging is ruled out. */
  ghost predicate Explained(said: seq<Said>, result: Result, route: Route, names: Names, original: Original) {
    && said != [] && said[0].Status? && said[0].path == names.remote
    && (route.InPlace? <==> SaysLink(said[0]) || RuledOut(said[1..], names, original))
    && (result.Err? <==> Failed(said[1..], names))
    && (result.Err? ==> (result.touched <==> Touched(said[1..])))
    && (result.Err? && result.leftover ==> Removed(names.temporary, false) in said[1..])
  }

  /** What was said since. */
  function Since(before: seq<Said>, now: seq<Said>): seq<Said> {
    if |before| <= |now| then now[|before|..] else []
  }

  /** Reading the path finds the old bytes, or all the new ones. */
  ghost predicate WhollyOldOrNew(before: Tree, now: Tree, remote: Path, local: seq<byte>) {
    Content(now, remote) == Content(before, remote) || Content(now, remote) == Some(local)
  }

  /** A temporary with anything in it has the file's mode already. */
  ghost predicate NeverReadableOnTheWay(now: Tree, temporary: Path, original: Original) {
    temporary in now && now[temporary].File? && now[temporary].bytes != [] && original.mode.Some?
    ==> now[temporary].mode == original.mode.value
  }

  /** What holds at every instant of the staged route. */
  ghost predicate Safe(before: Tree, now: Tree, local: seq<byte>, names: Names, original: Original) {
    WhollyOldOrNew(before, now, names.remote, local) && NeverReadableOnTheWay(now, names.temporary, original)
  }

  ghost predicate SafeSince(before: Tree, history: seq<Tree>, from: nat, local: seq<byte>, names: Names,
                            original: Original) {
    forall i :: from <= i < |history| ==> Safe(before, history[i], local, names, original)
  }

  /** The file, and the fresh name beside it. */
  datatype Names = Names(remote: Path, temporary: Path) {
    predicate Fresh(nodes: Tree) {
      temporary !in nodes && temporary != remote && Resolve(nodes, remote) != temporary
    }
  }

  /** Nothing but the temporary was touched. */
  ghost predicate Beside(before: Tree, now: Tree, names: Names) {
    now - {names.temporary} == before
  }

  /** The new file is in place, nothing else touched. */
  ghost predicate Swapped(before: Tree, now: Tree, local: seq<byte>, names: Names, original: Original) {
    && names.remote in now && original.Describes(now[names.remote]) && now[names.remote].bytes == local
    && now == before[names.remote := now[names.remote]]
  }

  lemma BesideSafe(before: Tree, now: Tree, local: seq<byte>, names: Names, original: Original)
    requires names.Fresh(before) && Beside(before, now, names)
    requires NeverReadableOnTheWay(now, names.temporary, original)
    ensures Safe(before, now, local, names, original)
  {
    assert names.remote in now <==> names.remote in before;
    assert names.remote in now ==> now[names.remote] == (now - {names.temporary})[names.remote];
    var at := Resolve(before, names.remote);
    assert at in now ==> now[at] == (now - {names.temporary})[at];
  }

  lemma SwappedSafe(before: Tree, now: Tree, local: seq<byte>, names: Names, original: Original)
    requires names.Fresh(before) && Swapped(before, now, local, names, original)
    ensures Safe(before, now, local, names, original)
  {
  }

  /** Whether the temporary, still empty, can be like the file: its mode, and
      nobody else's (renamed into place, it would change hands). */
  method MakeLike(server: Server, ghost before: Tree, local: seq<byte>, names: Names, original: Original)
    returns (fits: bool)
    requires names.Fresh(before) && Beside(before, server.nodes, names)
    requires var t := names.temporary;
      t in server.nodes && server.nodes[t].File? && server.nodes[t].bytes == []
    modifies server
    ensures old(server.history) <= server.history
    ensures SafeSince(before, server.history, |old(server.history)|, local, names, original)
    ensures Beside(before, server.nodes, names) && Safe(before, server.nodes, local, names, original)
    ensures fits ==>
      var t := names.temporary;
      t in server.nodes && original.Describes(server.nodes[t]) && server.nodes[t].bytes == []
    ensures var said := Since(old(server.said), server.said);
      && server.said == old(server.said) + said
      && !Failed(said, names) && !Touched(said) && (fits <==> !RuledOut(said, names, original))
    ensures server.healthy && original.Owns(old(server.nodes)[names.temporary]) ==> fits
  {
    hide Safe;
    hide Beside;
    hide RuledOut;
    hide Failed;
    hide Touched;
    ghost var said := [];
    NothingSaid(names, original);
    BesideSafe(before, server.nodes, local, names, original);
    fits := true;
    if original.mode.Some? {
      fits := server.SetMode(names.temporary, original.mode.value);
      SaidNext(said, Mode(names.temporary, fits), names, original);
      said := said + [Mode(names.temporary, fits)];
      BesideAgain(before, old(server.nodes), server.nodes, names);
      BesideSafe(before, server.nodes, local, names, original);
    }
    if fits {
      var like := server.Lstat(names.temporary);
      SaidNext(said, Status(names.temporary, like), names, original);
      said := said + [Status(names.temporary, like)];
      fits := like.Some?
        && (original.owner.None? || original.owner.value == like.value.owner)
        && (original.group.None? || original.group.value == like.value.group);
    }
    assert Since(old(server.said), server.said) == said;
  }

  lemma BesideAgain(before: Tree, aside: Tree, now: Tree, names: Names)
    requires Beside(before, aside, names) && names.temporary in now
    requires now == aside[names.temporary := now[names.temporary]]
    ensures Beside(before, now, names)
  {
    assert now - {names.temporary} == aside - {names.temporary};
  }

  /** Filling the temporary: it is the whole copy, with the file's mode and owner,
      or nothing came of it. `None`: it can't be like the file, or the folder takes
      no new files. */
  method Fill(server: Server, local: seq<byte>, names: Names, original: Original)
    returns (filled: bool, failure: Option<Result>)
    requires names.Fresh(server.nodes)
    modifies server
    ensures old(server.history) <= server.history
    ensures SafeSince(old(server.nodes), server.history, |old(server.history)|, local, names, original)
    ensures Beside(old(server.nodes), server.nodes, names)
    ensures filled ==>
              && failure == None && names.temporary in server.nodes
              && original.Describes(server.nodes[names.temporary]) && server.nodes[names.temporary].bytes == local
              && Safe(old(server.nodes), server.nodes, local, names, original)
    ensures failure.Some? ==> !filled && failure.value.Err? && !failure.value.touched
    ensures failure.Some? && !failure.value.leftover ==> names.temporary !in server.nodes
    ensures server.healthy ==> failure.None?
    ensures var said := Since(old(server.said), server.said);
      && server.said == old(server.said) + said && !Touched(said)
      && (filled || failure.Some? <==> !RuledOut(said, names, original))
      && (failure.Some? <==> Failed(said, names))
      && (failure.Some? && failure.value.leftover ==> Removed(names.temporary, false) in said)
    ensures server.healthy && server.Suits(original) ==> filled
  {
    hide Safe;
    hide Content;
    hide RuledOut;
    hide Failed;
    hide Touched;
    ghost var before, start, said := server.nodes, server.said, [];
    NothingSaid(names, original);
    var temporary := names.temporary;
    var made := server.OpenNew(temporary);
    SaidNext(said, New(temporary, made), names, original);
    said := said + [New(temporary, made)];
    assert Since(start, server.said) == said;
    match made {
      case PermissionDenied => return false, None;
      case OpenFailed => return false, Some(Err(false, false));
      case Opened =>
    }
    assert Beside(before, server.nodes, names);
    BesideSafe(before, server.nodes, local, names, original);
    ghost var untilNow := server.said;
    var fits := MakeLike(server, before, local, names, original);
    SaidAfter(said, Since(untilNow, server.said), names, original);
    said := said + Since(untilNow, server.said);
    if !fits {
      var left := Discard(server, before, local, names, original);
      SaidNext(said, Removed(temporary, !left), names, original);
      assert Since(start, server.said) == said + [Removed(temporary, !left)];
      return false, None;
    }
    ghost var empty, sending := server.nodes, |server.history|;
    var sent := server.SendFile(local, temporary);
    SaidNext(said, Sent(temporary, sent), names, original);
    said := said + [Sent(temporary, sent)];
    assert Since(start, server.said) == said;
    forall i | sending <= i < |server.history| ensures Safe(before, server.history[i], local, names, original) {
      SendingSafe(before, empty, server.history[i], local, names, original);
    }
    SendingSafe(before, empty, server.nodes, local, names, original);
    if !sent {
      var left := Discard(server, before, local, names, original);
      SaidNext(said, Removed(temporary, !left), names, original);
      assert Since(start, server.said) == said + [Removed(temporary, !left)];
      return false, Some(Err(false, left));
    }
    return true, None;
  }

  lemma SendingSafe(before: Tree, empty: Tree, now: Tree, local: seq<byte>, names: Names, original: Original)
    requires names.Fresh(before) && Beside(before, empty, names)
    requires OnlyBytes(empty, now, names.temporary) && original.Describes(empty[names.temporary])
    ensures Beside(before, now, names) && Safe(before, now, local, names, original)
    ensures original.Describes(now[names.temporary])
  {
    assert now - {names.temporary} == empty - {names.temporary};
    BesideSafe(before, now, local, names, original);
  }

  /** Removing the temporary again. */
  method Discard(server: Server, ghost before: Tree, local: seq<byte>, names: Names, original: Original)
    returns (left: bool)
    requires names.Fresh(before) && Beside(before, server.nodes, names)
    requires Safe(before, server.nodes, local, names, original)
    modifies server
    ensures server.history == old(server.history) + [server.nodes]
    ensures server.said == old(server.said) + [Removed(names.temporary, !left)]
    ensures Beside(before, server.nodes, names) && Safe(before, server.nodes, local, names, original)
    ensures !left ==> names.temporary !in server.nodes
  {
    left := server.LeftBehind(names.temporary);
    assert server.nodes - {names.temporary} == old(server.nodes) - {names.temporary};
    BesideSafe(before, server.nodes, local, names, original);
  }

  /** Replaces the file by the copy: a staged one takes its place where mode and
      owner stay the same, else its bytes are rewritten where they are. */
  method Upload(server: Server, local: seq<byte>, names: Names, original: Original)
    returns (result: Result, route: Route)
    requires names.Fresh(server.nodes)
    modifies server
    // Done: the file has the copy's bytes, and is otherwise what it was.
    ensures result.Ok? ==> Content(server.nodes, names.remote) == Some(local)
    ensures result.Ok? && route.Staged? ==>
              names.temporary !in server.nodes && Swapped(old(server.nodes), server.nodes, local, names, original)
    ensures result.Ok? && route.InPlace? ==>
              Rewritten(old(server.nodes), server.nodes - {names.temporary}, local, names)
    ensures var at, now := Resolve(old(server.nodes), names.remote), Resolve(server.nodes, names.remote);
      result.Ok? && at in old(server.nodes) && original.Describes(old(server.nodes)[at]) ==>
        now in server.nodes && original.Describes(server.nodes[now])
    // Failed untouched: nothing happened to it, or to anything but the temporary.
    ensures result.Err? && !result.touched ==> Beside(old(server.nodes), server.nodes, names)
    ensures result.Err? && route.Staged? && !result.leftover ==> names.temporary !in server.nodes
    // Staged: at every instant the old file or the new one, never a part of it.
    ensures route.Staged? ==>
              && old(server.history) <= server.history
              && SafeSince(old(server.nodes), server.history, |old(server.history)|, local, names, original)
    // And it fails only if something on the way did, or there is no file to write.
    ensures var at := Resolve(old(server.nodes), names.remote);
      server.healthy && (at in old(server.nodes) ==> old(server.nodes)[at].File?) ==> result.Ok?
    // In place exactly if the file is seen to be a link, or staging is ruled out.
    // And an error is an answer's (or the copy could not be read).
    ensures server.said == old(server.said) + Since(old(server.said), server.said)
    ensures Explained(Since(old(server.said), server.said), result, route, names, original)
    ensures server.healthy && names.remote in old(server.nodes) && old(server.nodes)[names.remote].Link? ==>
              route.InPlace?
    ensures server.healthy && (names.remote in old(server.nodes) ==> old(server.nodes)[names.remote].File?) ==>
              (server.Suits(original) ==> result.Ok? && route.Staged?)
  {
    hide Safe;
    hide Content;
    hide Swapped;
    hide Rewritten;
    hide Original.Describes;
    hide Since;
    hide Explained;
    ghost var before := server.nodes;
    route := Staged;
    hide RuledOut;
    hide Failed;
    hide Touched;
    ghost var start, said := server.said, [];
    NothingSaid(names, original);
    // Renaming would replace an unresolved link, not the file behind it.
    var link := server.Lstat(names.remote);
    ghost var first, seen := Status(names.remote, link), server.said;
    var throughLink := link.Some? && link.value.Link?;
    if !throughLink {
      var filled, failure := Fill(server, local, names, original);
      said := Since(seen, server.said);
      if failure.Some? {
        Explains(start, server.said, first, said, failure.value, Staged, names, original);
        return failure.value, Staged;
      }
      if filled {
        ghost var full := server.said;
        result := Replace(server, before, local, names, original);
        if result.Ok? {
          SwappedLike(before, server.nodes, local, names, original);
        }
        SaidAfter(said, Since(full, server.said), names, original);
        said := said + Since(full, server.said);
        Explains(start, server.said, first, said, result, Staged, names, original);
        return;
      }
    }
    route := InPlace;
    ghost var untilNow := server.said;
    result := RewriteInPlace(server, before, local, names, original);
    if result.Ok? {
      RewrittenLike(before, server.nodes, local, names, original);
    }
    SaidAfter(said, Since(untilNow, server.said), names, original);
    said := said + Since(untilNow, server.said);
    Explains(start, server.said, first, said, result, InPlace, names, original);
  }

  lemma SwappedLike(before: Tree, now: Tree, local: seq<byte>, names: Names, original: Original)
    requires Swapped(before, now, local, names, original)
    ensures Content(now, names.remote) == Some(local)
    ensures Resolve(now, names.remote) in now && original.Describes(now[Resolve(now, names.remote)])
  {
  }

  lemma RewrittenLike(before: Tree, now: Tree, local: seq<byte>, names: Names, original: Original)
    requires Rewritten(before, now - {names.temporary}, local, names)
    requires Resolve(now, names.remote) == Resolve(before, names.remote)
    ensures var at := Resolve(before, names.remote);
      at in before && original.Describes(before[at]) ==> at in now && original.Describes(now[at])
  {
    var kept := now - {names.temporary};
    assert Resolve(before, names.remote) in kept;
  }

  /** The file emptied and written where the path leads: an error after that has touched it. */
  method RewriteInPlace(server: Server, ghost before: Tree, local: seq<byte>, names: Names, original: Original)
    returns (result: Result)
    requires names.Fresh(before) && Beside(before, server.nodes, names)
    modifies server
    ensures result.Ok? ==>
              && Rewritten(before, server.nodes - {names.temporary}, local, names)
              && Content(server.nodes, names.remote) == Some(local)
              && Resolve(server.nodes, names.remote) == Resolve(before, names.remote)
    ensures result.Err? ==> !result.leftover && (!result.touched ==> Beside(before, server.nodes, names))
    ensures var at := Resolve(before, names.remote);
      server.healthy && (at in before ==> before[at].File?) ==> result.Ok?
    ensures var said := Since(old(server.said), server.said);
      && server.said == old(server.said) + said && !RuledOut(said, names, original)
      && (result.Err? <==> Failed(said, names)) && (result.Err? ==> (result.touched <==> Touched(said)))
  {
    hide RuledOut;
    hide Failed;
    hide Touched;
    ghost var start, aside, said := server.said, server.nodes, [];
    NothingSaid(names, original);
    var at := Resolve(server.nodes, names.remote);
    AsideResolves(before, aside, names);
    var ok := server.Truncate(names.remote);
    SaidNext(said, Emptied(names.remote, ok), names, original);
    said := said + [Emptied(names.remote, ok)];
    assert Since(start, server.said) == said;
    if !ok {
      return Err(false, false);
    }
    // The old bytes are gone.
    ghost var emptied := server.nodes;
    var sent := server.SendFile(local, at);
    SaidNext(said, Sent(at, sent), names, original);
    said := said + [Sent(at, sent)];
    assert Since(start, server.said) == said;
    if sent {
      InPlaceRewrites(before, aside, emptied, server.nodes, local, names);
    }
    return if sent then Ok else Err(true, false);
  }

  lemma Explains(start: seq<Said>, now: seq<Said>, first: Said, rest: seq<Said>, result: Result, route: Route,
                 names: Names, original: Original)
    requires now == start + [first] + rest && first.Status? && first.path == names.remote
    requires route.InPlace? <==> SaysLink(first) || RuledOut(rest, names, original)
    requires result.Err? <==> Failed(rest, names)
    requires result.Err? ==> (result.touched <==> Touched(rest))
    requires result.Err? && result.leftover ==> Removed(names.temporary, false) in rest
    ensures now == start + Since(start, now) && Explained(Since(start, now), result, route, names, original)
  {
    hide RuledOut;
    hide Failed;
    hide Touched;
    var said := Since(start, now);
    assert said == [first] + rest && said[1..] == rest;
  }

  /** The bytes were replaced where the path leads; a file that was there keeps
      its mode, owner and group. */
  ghost predicate Rewritten(before: Tree, now: Tree, local: seq<byte>, names: Names) {
    var at := Resolve(before, names.remote);
    && at in now && now[at].File? && now[at].bytes == local
    && now == before[at := now[at]]
    && (at in before ==> OnlyBytes(before, now, at))
  }

  lemma AsideResolves(before: Tree, aside: Tree, names: Names)
    requires names.Fresh(before) && Beside(before, aside, names)
    ensures Resolve(aside, names.remote) == Resolve(before, names.remote)
  {
    assert names.remote in aside <==> names.remote in aside - {names.temporary};
  }

  lemma InPlaceRewrites(before: Tree, aside: Tree, emptied: Tree, now: Tree, local: seq<byte>, names: Names)
    requires names.Fresh(before) && Beside(before, aside, names)
    requires var at := Resolve(aside, names.remote);
      && at in emptied && emptied[at].File? && emptied == aside[at := emptied[at]]
      && (at in aside ==> OnlyBytes(aside, emptied, at))
      && OnlyBytes(emptied, now, at) && now[at].bytes == local
    ensures Rewritten(before, now - {names.temporary}, local, names)
    ensures Content(now, names.remote) == Some(local)
  {
    AsideResolves(before, aside, names);
    var at := Resolve(before, names.remote);
    var kept := now - {names.temporary};
    assert at in before <==> at in aside;
    assert at in before ==> before[at] == aside[at];
    assert kept == before[at := now[at]];
  }

  /** The filled temporary takes the file's place, unless a folder took it. */
  method Replace(server: Server, ghost before: Tree, local: seq<byte>, names: Names, original: Original)
    returns (result: Result)
    requires names.Fresh(before) && Beside(before, server.nodes, names) && names.temporary in server.nodes
    requires original.Describes(server.nodes[names.temporary]) && server.nodes[names.temporary].bytes == local
    requires Safe(before, server.nodes, local, names, original)
    modifies server
    ensures old(server.history) <= server.history
    ensures SafeSince(before, server.history, |old(server.history)|, local, names, original)
    ensures result.Ok? ==>
              names.temporary !in server.nodes && Swapped(before, server.nodes, local, names, original)
    ensures result.Err? && !result.touched ==> Beside(before, server.nodes, names)
    ensures result.Err? && !result.leftover ==> names.temporary !in server.nodes
    ensures server.healthy && (names.remote in before ==> !before[names.remote].Folder?) ==> result.Ok?
    ensures names.remote in before && before[names.remote].Folder? ==> result.Err?
    ensures var said := Since(old(server.said), server.said);
      && server.said == old(server.said) + said && !RuledOut(said, names, original)
      && (result.Err? <==> Failed(said, names))
      && (result.Err? && result.touched <==> Touched(said))
      && (result.Err? && result.leftover ==> Removed(names.temporary, false) in said)
  {
    hide Safe;
    hide RuledOut;
    hide Failed;
    hide Touched;
    ghost var start, said := server.said, [];
    NothingSaid(names, original);
    // Not over a folder, however late it came.
    var there := server.Lstat(names.remote);
    SaidNext(said, Status(names.remote, there), names, original);
    said := said + [Status(names.remote, there)];
    if there.Some? && there.value.Folder? {
      var left := Discard(server, before, local, names, original);
      SaidNext(said, Removed(names.temporary, !left), names, original);
      assert Since(start, server.said) == said + [Removed(names.temporary, !left)];
      return Err(false, left);
    }
    ghost var full := server.nodes;
    var renamed := server.Rename(names.temporary, names.remote);
    SaidNext(said, Moved(names.temporary, names.remote, renamed), names, original);
    said := said + [Moved(names.temporary, names.remote, renamed)];
    assert Since(start, server.said) == said;
    var landed := names.temporary !in server.nodes;
    if landed {
      assert server.nodes == before[names.remote := full[names.temporary]];
      SwappedSafe(before, server.nodes, local, names, original);
    }
    if !renamed {
      // An error may stand for a rename that was done.
      var left := server.LeftBehind(names.temporary);
      SaidNext(said, Removed(names.temporary, !left), names, original);
      assert Since(start, server.said) == said + [Removed(names.temporary, !left)];
      if landed {
        SwappedSafe(before, server.nodes, local, names, original);
      } else {
        assert server.nodes - {names.temporary} == full - {names.temporary};
        BesideSafe(before, server.nodes, local, names, original);
      }
      return Err(true, left);
    }
    return Ok;
  }
}
