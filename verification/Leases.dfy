/** The SSH connections and who shares them (src-tauri/src/connections.rs): connects,
    attaches, dropped leases and losses in any order, two connects racing for one id
    included. */
module Leases {
  import opened Basics

  type Id = string

  /** A connection, numbered by its generation. `ended`: its transport is down. */
  datatype Connection = Connection(id: Id, inserted: bool, users: nat, ended: bool, hangUps: nat, reports: nat)

  datatype World = World(
    connections: seq<Connection>,
    registry: map<Id, nat>,
    // The live leases, by the generation they share.
    leases: multiset<nat>)

  const Started := World([], map[], multiset{})

  datatype Event =
    | Dial(id: Id)
    | Insert(g: nat)
    | Attach(id: Id, suits: bool)
    | Drop(g: nat)
    | End(g: nat)
    | Lose(g: nat)

  predicate Enabled(w: World, e: Event) {
    match e
    // Refused while an open connection has the id.
    case Dial(id) => id in w.registry && w.registry[id] < |w.connections| ==> w.connections[w.registry[id]].ended
    case Insert(g) => g < |w.connections| && !w.connections[g].inserted
    case Attach(id, suits) =>
      suits && id in w.registry && w.registry[id] < |w.connections| && !w.connections[w.registry[id]].ended
    case Drop(g) => g < |w.connections| && g in w.leases
    case End(g) => g < |w.connections|
    case Lose(g) => g < |w.connections|
  }

  // ---- One step -------------------------------------------------------------------------

  /** A connect takes its generation, and is off to the server. */
  function AfterDial(w: World, id: Id): World {
    w.(connections := w.connections + [Connection(id, false, 0, false, 0, 0)])
  }

  /** It is let in, and registered over whatever has its id by then. */
  function AfterInsert(w: World, g: nat): World
    requires g < |w.connections|
  {
    var c := w.connections[g];
    World(w.connections[g := c.(inserted := true, users := 1)], w.registry[c.id := g], w.leases + multiset{g})
  }

  function AfterAttach(w: World, id: Id): World
    requires id in w.registry && w.registry[id] < |w.connections|
  {
    var g := w.registry[id];
    var c := w.connections[g];
    w.(connections := w.connections[g := c.(users := c.users + 1)], leases := w.leases + multiset{g})
  }

  /** The last user forgets the connection, if its id is still its own, and hangs up. */
  function AfterDrop(w: World, g: nat): World
    requires g < |w.connections|
  {
    var c := w.connections[g];
    var leases := w.leases - multiset{g};
    if c.users != 1 then
      w.(connections := w.connections[g := c.(users := if c.users > 0 then c.users - 1 else 0)], leases := leases)
    else
      World(w.connections[g := c.(users := 0, hangUps := c.hangUps + 1)],
            if c.id in w.registry && w.registry[c.id] == g then w.registry - {c.id} else w.registry,
            leases)
  }

  /** The server's end: reported if the connection is the one known by its id. */
  function AfterLose(w: World, g: nat): World
    requires g < |w.connections|
  {
    var c := w.connections[g];
    if c.id !in w.registry || w.registry[c.id] != g then w
    else w.(connections := w.connections[g := c.(reports := c.reports + 1)], registry := w.registry - {c.id})
  }

  /** The transport goes down, and whoever notices notices. */
  function AfterEnd(w: World, g: nat): World
    requires g < |w.connections|
  {
    w.(connections := w.connections[g := w.connections[g].(ended := true)])
  }

  function Next(w: World, e: Event): World
    requires Enabled(w, e)
  {
    match e
    case Dial(id) => AfterDial(w, id)
    case Insert(g) => AfterInsert(w, g)
    case Attach(id, _) => AfterAttach(w, id)
    case Drop(g) => AfterDrop(w, g)
    case End(g) => AfterEnd(w, g)
    case Lose(g) => AfterLose(w, g)
  }

  function Run(w: World, events: seq<Event>): World
    decreases |events|
  {
    if events == [] then w
    else Run(if Enabled(w, events[0]) then Next(w, events[0]) else w, events[1..])
  }

  // ---- What every interleaving keeps ---------------------------------------------------------

  predicate Registered(w: World, g: nat) {
    g < |w.connections| && w.connections[g].id in w.registry && w.registry[w.connections[g].id] == g
  }

  ghost predicate ConnectionFits(w: World, g: nat)
    requires g < |w.connections|
  {
    var c := w.connections[g];
    && c.users == w.leases[g]
    && c.hangUps == (if c.inserted && c.users == 0 then 1 else 0)
    && c.reports <= 1
    && (!c.inserted ==> c.users == 0 && c.reports == 0)
    && (Registered(w, g) ==> c.inserted && c.users > 0 && c.reports == 0)
  }

  ghost predicate Inv(w: World) {
    && (forall id :: id in w.registry ==> w.registry[id] < |w.connections| && w.connections[w.registry[id]].id == id)
    && (forall g :: 0 <= g < |w.connections| ==> ConnectionFits(w, g))
    && (forall g :: g in w.leases ==> g < |w.connections|)
  }

  lemma DialKeeps(w: World, id: Id)
    requires Inv(w) && Enabled(w, Dial(id))
    ensures Inv(AfterDial(w, id))
  {
    var after := AfterDial(w, id);
    forall h | 0 <= h < |after.connections| ensures ConnectionFits(after, h) {
      assert h < |w.connections| ==> ConnectionFits(w, h);
    }
  }

  lemma InsertKeeps(w: World, g: nat)
    requires Inv(w) && Enabled(w, Insert(g))
    ensures Inv(AfterInsert(w, g))
  {
    var after := AfterInsert(w, g);
    forall h | 0 <= h < |after.connections| ensures ConnectionFits(after, h) {
      assert h < |w.connections| ==> ConnectionFits(w, h);
    }
  }

  lemma AttachKeeps(w: World, id: Id)
    requires Inv(w) && Enabled(w, Attach(id, true))
    ensures Inv(AfterAttach(w, id))
  {
    var after := AfterAttach(w, id);
    forall h | 0 <= h < |after.connections| ensures ConnectionFits(after, h) {
      assert h < |w.connections| ==> ConnectionFits(w, h);
    }
  }

  lemma DropKeeps(w: World, g: nat)
    requires Inv(w) && Enabled(w, Drop(g))
    ensures Inv(AfterDrop(w, g))
  {
    var after := AfterDrop(w, g);
    forall h | 0 <= h < |after.connections| ensures ConnectionFits(after, h) {
      assert h < |w.connections| ==> ConnectionFits(w, h);
    }
  }

  lemma EndKeeps(w: World, g: nat)
    requires Inv(w) && g < |w.connections|
    ensures Inv(AfterEnd(w, g))
  {
    var after := AfterEnd(w, g);
    forall h | 0 <= h < |after.connections| ensures ConnectionFits(after, h) {
      assert h < |w.connections| ==> ConnectionFits(w, h);
    }
  }

  lemma LoseKeeps(w: World, g: nat)
    requires Inv(w) && g < |w.connections|
    ensures Inv(AfterLose(w, g))
  {
    var after := AfterLose(w, g);
    forall h | 0 <= h < |after.connections| ensures ConnectionFits(after, h) {
      assert h < |w.connections| ==> ConnectionFits(w, h);
    }
  }

  lemma NextKeeps(w: World, e: Event)
    requires Inv(w) && Enabled(w, e)
    ensures Inv(Next(w, e))
  {
    hide Inv;
    match e
    case Dial(id) => DialKeeps(w, id);
    case Insert(g) => InsertKeeps(w, g);
    case Attach(id, _) => AttachKeeps(w, id);
    case Drop(g) => DropKeeps(w, g);
    case End(g) => EndKeeps(w, g);
    case Lose(g) => LoseKeeps(w, g);
  }

  lemma {:induction false} RunKeeps(w: World, events: seq<Event>)
    requires Inv(w)
    ensures Inv(Run(w, events))
    decreases |events|
  {
    hide Inv;
    if events != [] {
      if Enabled(w, events[0]) {
        NextKeeps(w, events[0]);
        RunKeeps(Next(w, events[0]), events[1..]);
      } else {
        RunKeeps(w, events[1..]);
      }
    }
  }

  // ---- What it means ------------------------------------------------------------------------

  /** In every run a connection's users are its live leases; a registered one has some;
      and it is hung up once, when the last is dropped. */
  lemma UsersAreLeases(events: seq<Event>, g: nat)
    requires g < |Run(Started, events).connections|
    ensures var w := Run(Started, events);
      var c := w.connections[g];
      && c.users == w.leases[g]
      && (Registered(w, g) ==> c.users > 0)
      && c.hangUps <= 1
      && (c.hangUps == 1 <==> c.inserted && w.leases[g] == 0)
  {
    RunKeeps(Started, events);
    assert ConnectionFits(Run(Started, events), g);
  }

  /** Out of the registry for good: hung up, lost, or replaced under its id. */
  predicate Gone(w: World, g: nat) {
    g < |w.connections| && w.connections[g].inserted && !Registered(w, g)
  }

  /** The connection with generation `g` is as it was, but for leases dropped. */
  predicate Untouched(w: World, after: World, g: nat)
    requires g < |w.connections|
  {
    && g < |after.connections|
    && var b, c := after.connections[g], w.connections[g];
       b.id == c.id && b.inserted == c.inserted && b.reports == c.reports && b.users <= c.users
  }

  /** Its generation is nowhere in the registry. */
  ghost predicate Unlisted(w: World, g: nat) {
    forall id :: id in w.registry ==> w.registry[id] != g
  }

  lemma GoneIsUnlisted(w: World, g: nat)
    requires Inv(w) && Gone(w, g)
    ensures Unlisted(w, g)
  {
    hide ConnectionFits;
  }

  lemma DropUntouched(w: World, g: nat, h: nat)
    requires g < |w.connections| && h < |w.connections| && Unlisted(w, g)
    ensures Untouched(w, AfterDrop(w, h), g) && Unlisted(AfterDrop(w, h), g)
  {
  }

  lemma GoneStep(w: World, e: Event, g: nat)
    requires Inv(w) && Gone(w, g) && Enabled(w, e)
    ensures Gone(Next(w, e), g) && Untouched(w, Next(w, e), g)
  {
    GoneIsUnlisted(w, g);
    hide Inv;
    match e
    case Drop(h) =>
      DropUntouched(w, g, h);
      hide AfterDrop;
    case _ =>
  }

  lemma {:induction false} GoneStays(w: World, events: seq<Event>, g: nat)
    requires Inv(w) && Gone(w, g)
    ensures Gone(Run(w, events), g) && Untouched(w, Run(w, events), g)
    decreases |events|
  {
    hide Inv;
    hide Next;
    hide Enabled;
    if events != [] {
      var e := events[0];
      if Enabled(w, e) {
        NextKeeps(w, e);
        GoneStep(w, e, g);
        GoneStays(Next(w, e), events[1..], g);
      } else {
        GoneStays(w, events[1..], g);
      }
    }
  }

  /** A loss is reported at most once; and once a connection has been hung up, reported
      lost or replaced under its id, no lease on it is given out and no loss of it is
      reported any more. */
  lemma LossReportedOnce(before: seq<Event>, after: seq<Event>, g: nat)
    requires g < |Run(Started, before).connections|
    ensures Run(Started, before).connections[g].reports <= 1
    ensures var w := Run(Started, before);
      var c := w.connections[g];
      var later := Run(w, after);
      c.inserted && (c.hangUps > 0 || c.reports > 0 || !Registered(w, g)) ==>
        && g < |later.connections|
        && later.connections[g].reports == c.reports
        && later.connections[g].users <= c.users
  {
    RunKeeps(Started, before);
    var w := Run(Started, before);
    assert ConnectionFits(w, g);
    if Gone(w, g) {
      GoneStays(w, after, g);
    }
  }

  /** The loss of a connection known by its id is reported, and its id free again. */
  lemma LossIsReported(events: seq<Event>, g: nat)
    requires Registered(Run(Started, events), g)
    ensures var w := Run(Started, events);
      var after := Next(w, Lose(g));
      && after.connections[g].reports == 1 && !Registered(after, g)
      && after.leases == w.leases
  {
    RunKeeps(Started, events);
    assert ConnectionFits(Run(Started, events), g);
  }

  lemma RunOne(w: World, e: Event, more: seq<Event>)
    requires Enabled(w, e)
    ensures Run(w, [e] + more) == Run(Next(w, e), more)
  {
    assert ([e] + more)[1..] == more;
    hide Next;
    hide Enabled;
  }

  /** `n` leases live on the connection with generation `g`, known by `id`. */
  predicate LeasedBy(w: World, g: nat, id: Id, n: nat) {
    && Registered(w, g) && w.connections[g].id == id && !w.connections[g].ended && w.connections[g].inserted
    && w.connections[g].users == n && w.connections[g].hangUps == 0
    && w.leases[g] == n
  }

  lemma DialLeases(w: World, id: Id)
    requires Inv(w) && Enabled(w, Dial(id))
    ensures var g := |w.connections|;
      Enabled(Next(w, Dial(id)), Insert(g)) && LeasedBy(Next(Next(w, Dial(id)), Insert(g)), g, id, 1)
  {
    assert |w.connections| !in w.leases;
    hide ConnectionFits;
  }

  lemma LeaseMore(w: World, g: nat, id: Id, n: nat)
    requires LeasedBy(w, g, id, n) && n > 0
    ensures Enabled(w, Attach(id, true)) && LeasedBy(Next(w, Attach(id, true)), g, id, n + 1)
    ensures Enabled(w, Drop(g))
    ensures n > 1 ==> LeasedBy(Next(w, Drop(g)), g, id, n - 1)
    ensures n == 1 ==> Gone(Next(w, Drop(g)), g) && Next(w, Drop(g)).connections[g].hangUps == 1
  {
  }

  /** Two share a connection: it stays for the second when the first goes, and is hung up
      when the second does. */
  lemma SharedThenHungUp(w: World, id: Id)
    requires Inv(w) && Enabled(w, Dial(id))
    ensures var g := |w.connections|;
      var shared := Run(w, [Dial(id)] + ([Insert(g)] + ([Attach(id, true)] + [])));
      && LeasedBy(shared, g, id, 2)
      && LeasedBy(Run(shared, [Drop(g)] + []), g, id, 1)
      && var last := Run(shared, [Drop(g)] + ([Drop(g)] + []));
         Gone(last, g) && last.connections[g].hangUps == 1
  {
    var g := |w.connections|;
    DialLeases(w, id);
    var one := Next(Next(w, Dial(id)), Insert(g));
    LeaseMore(one, g, id, 1);
    var two := Next(one, Attach(id, true));
    LeaseMore(two, g, id, 2);
    var left := Next(two, Drop(g));
    LeaseMore(left, g, id, 1);
    hide Next;
    hide Enabled;
    hide LeasedBy;
    hide Gone;
    RunOne(w, Dial(id), [Insert(g)] + ([Attach(id, true)] + []));
    RunOne(Next(w, Dial(id)), Insert(g), [Attach(id, true)] + []);
    RunOne(one, Attach(id, true), []);
    RunOne(two, Drop(g), [Drop(g)] + []);
    RunOne(two, Drop(g), []);
    RunOne(left, Drop(g), []);
  }

  // ---- The registry ---------------------------------------------------------------------------

  /** What the leases of a connection share. */
  class SshConnection {
    const id: Id
    const generation: nat
    var users: nat
    var hangUps: nat

    constructor (id: Id, generation: nat)
      ensures this.id == id && this.generation == generation && users == 1 && hangUps == 0
    {
      this.id, this.generation, users, hangUps := id, generation, 1, 0;
    }

    /** One user fewer; the last one hangs up. */
    method Leave() returns (last: bool)
      requires users > 0
      modifies this
      ensures users == old(users) - 1 && last == (users == 0)
      ensures hangUps == old(hangUps) + if last then 1 else 0
    {
      users := users - 1;
      last := users == 0;
      if last {
        hangUps := hangUps + 1;
      }
    }
  }

  ghost predicate Shared(w: World, all: map<nat, SshConnection>)
    reads all.Values
  {
    && (forall g: nat :: g in all <==> g < |w.connections| && w.connections[g].inserted)
    && (forall g: nat :: g in all ==>
          && all[g].generation == g && all[g].id == w.connections[g].id
          && all[g].users == w.connections[g].users && all[g].hangUps == w.connections[g].hangUps)
  }

  /** What a dropped lease changes, and what not. */
  lemma DropChanges(w: World, g: nat)
    requires Inv(w) && Enabled(w, Drop(g))
    ensures var after, c := AfterDrop(w, g), w.connections[g];
      && c.users > 0 && c.inserted && |after.connections| == |w.connections|
      && (forall h :: 0 <= h < |w.connections| && h != g ==> after.connections[h] == w.connections[h])
      && after.connections[g] == c.(users := c.users - 1, hangUps := c.hangUps + if c.users == 1 then 1 else 0)
      && after.registry == if c.users == 1 && Registered(w, g) then w.registry - {c.id} else w.registry
  {
    assert ConnectionFits(w, g);
  }

  lemma LoseShared(w: World, g: nat, all: map<nat, SshConnection>)
    requires g < |w.connections| && Shared(w, all)
    ensures Shared(AfterLose(w, g), all)
  {
  }

  /** The map behind its lock: each method does what the step of that name does. */
  class ConnectionRegistry {
    var connections: map<Id, SshConnection>
    var reports: multiset<nat>

    ghost predicate Mapped(w: World, all: map<nat, SshConnection>)
      reads this
    {
      && connections.Keys == w.registry.Keys
      && (forall id :: id in connections ==> w.registry[id] in all && connections[id] == all[w.registry[id]])
      && (forall g: nat :: g < |w.connections| ==> reports[g] == w.connections[g].reports)
    }

    /** `all`: every connection inserted so far, by generation. */
    ghost predicate Agrees(w: World, all: map<nat, SshConnection>)
      reads this, all.Values
    {
      Inv(w) && Shared(w, all) && Mapped(w, all)
    }

    /** The end of `connect`. */
    method Insert(id: Id, g: nat, ghost w: World, ghost all: map<nat, SshConnection>)
      returns (connection: SshConnection)
      requires Agrees(w, all) && Enabled(w, Event.Insert(g)) && w.connections[g].id == id
      modifies this
      ensures fresh(connection) && Agrees(AfterInsert(w, g), all[g := connection])
    {
      InsertKeeps(w, g);
      assert ConnectionFits(w, g);
      hide Inv;
      hide ConnectionFits;
      connection := new SshConnection(id, g);
      assert Shared(AfterInsert(w, g), all[g := connection]);
      hide Shared;
      connections := connections[id := connection];
    }

    /** `attach_if`. */
    method Attach(id: Id, ended: bool, suits: bool, ghost w: World, ghost all: map<nat, SshConnection>)
      returns (connection: SshConnection?)
      requires Agrees(w, all)
      requires id in w.registry ==> w.connections[w.registry[id]].ended == ended
      modifies all.Values
      ensures connection != null <==> Enabled(w, Event.Attach(id, suits))
      ensures Agrees(if connection != null then AfterAttach(w, id) else w, all)
      ensures connection != null ==> w.registry[id] in all && connection == all[w.registry[id]]
    {
      connection := null;
      if id in connections && !ended && suits {
        AttachKeeps(w, id);
        connection := connections[id];
        connection.users := connection.users + 1;
      }
      hide Inv;
    }

    /** `release`: a lease dropped. */
    method Release(connection: SshConnection, ghost w: World, ghost all: map<nat, SshConnection>)
      requires Agrees(w, all) && connection.generation in all && all[connection.generation] == connection
      requires Enabled(w, Event.Drop(connection.generation))
      modifies this, connection
      ensures Agrees(AfterDrop(w, connection.generation), all)
    {
      ghost var g := connection.generation;
      DropKeeps(w, g);
      DropChanges(w, g);
      hide Inv;
      hide AfterDrop;
      var last := connection.Leave();
      assert Shared(AfterDrop(w, g), all);
      hide Shared;
      if last && connection.id in connections && connections[connection.id] == connection {
        connections := connections - {connection.id};
      }
    }

    /** `lost`. */
    method Lost(id: Id, g: nat, ghost w: World, ghost all: map<nat, SshConnection>)
      requires Agrees(w, all) && g < |w.connections| && w.connections[g].id == id
      modifies this
      ensures Agrees(AfterLose(w, g), all)
    {
      LoseKeeps(w, g);
      LoseShared(w, g, all);
      hide Inv;
      hide ConnectionFits;
      assert id in connections ==> connections[id].generation == w.registry[id];
      hide Shared;
      if id in connections && connections[id].generation == g {
        connections := connections - {id};
        reports := reports + multiset{g};
      }
    }
  }
}
