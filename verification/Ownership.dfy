/** Who keeps a remote filesystem open (src/fm/claims.ts, src/fm/panel-view.ts,
    src-tauri/src/sftp/commands.rs): a tab's claims on top of the backend's count of
    users, with every await and every message a boundary between steps. */
module Ownership {
  import opened Basics

  datatype Fs = Here | Sftp(id: nat)

  // ---- A tab's claims -------------------------------------------------------------

  /** The filesystems a tab holds, and how many claims use each. */
  datatype Holds = Holds(counts: map<Fs, nat>, disposed: bool) {
    function Count(fs: Fs): nat {
      if fs in counts then counts[fs] else 0
    }
  }

  /** What a claim gives back: nothing to give back (a local filesystem's, or a
      closed tab's), or one of the tab's counted claims. */
  datatype Claim = NoClaim | Empty | Counted

  /** A change of a tab's claims, and the close messages it sends. */
  datatype Change = Change(holds: Holds, closes: multiset<Fs>)

  function Taken(h: Holds, fs: Fs): Holds {
    h.(counts := h.counts[fs := h.Count(fs) + 1])
  }

  /** A new reference in the backend: the tab keeps its first for `fs` and closes any other. */
  function Referenced(h: Holds, fs: Fs): Change {
    if h.disposed || fs in h.counts then Change(h, multiset{fs})
    else Change(h.(counts := h.counts[fs := 0]), multiset{})
  }

  /** And with a claim on it, unless the tab closed. */
  function Adopt(h: Holds, fs: Fs): Change {
    var c := Referenced(h, fs);
    if h.disposed then c else Change(Taken(c.holds, fs), c.closes)
  }

  function GiveBack(h: Holds, fs: Fs): Change {
    if h.Count(fs) > 1 then Change(h.(counts := h.counts[fs := h.Count(fs) - 1]), multiset{})
    else if fs in h.counts then Change(h.(counts := h.counts - {fs}), multiset{fs})
    else Change(h, multiset{})
  }

  function GiveBackClaim(h: Holds, fs: Fs, claim: Claim): Change {
    if claim.Counted? then GiveBack(h, fs) else Change(h, multiset{})
  }

  /** The tab closes. */
  function Dispose(h: Holds): Change {
    Change(Holds(map[], true), multiset(h.counts.Keys))
  }

  // ---- A panel and what is on its way to it ------------------------------------------

  datatype Held = Held(fs: Fs, counted: bool)

  /** `sequence`: how many navigations it has started. */
  datatype Panel = Panel(shown: Fs, held: Option<Held>, sequence: nat) {
    function HeldFs(): Fs {
      if held.Some? then held.value.fs else Here
    }
  }

  datatype Stage =
    | Planned
    | Opened                  // the backend opened the server; its reply is on its way
    | Adopted                 // the tab has a claim on it, and looks for the folder to show
    | Asking                  // a retain is on its way
    | Retained                // the backend did; its reply is on its way
    | Refused                 // it did not; its reply is on its way
    | Listing(claim: Claim)
    | Over

  /** Opening a server in a panel, or going to a folder. */
  datatype Op = Op(tab: nat, panel: nat, target: Fs, stage: Stage, sequence: nat) {
    predicate Navigating() {
      stage.Asking? || stage.Retained? || stage.Refused? || stage.Listing?
    }

    /** It has a reference the backend counted and the tab has yet to hear of. */
    function References(fs: Fs): nat {
      if (stage.Opened? || stage.Retained?) && target == fs then 1 else 0
    }

    function Claims(fs: Fs): nat {
      if (stage.Adopted? || (stage.Listing? && stage.claim.Counted?)) && target == fs then 1 else 0
    }
  }

  /** What a front-end step sees and changes, and the close messages it sends. */
  datatype Piece = Piece(op: Op, holds: Holds, panel: Panel, closes: multiset<Fs>) {
    predicate Current() {
      op.sequence == panel.sequence
    }
  }

  /** Connecting answers: the tab adopts the reference. */
  function AfterConnected(p: Piece): Piece {
    var c := Adopt(p.holds, p.op.target);
    p.(op := p.op.(stage := if p.holds.disposed then Over else Adopted), holds := c.holds, closes := c.closes)
  }

  /** `navigate` up to its first await. */
  function AfterGo(p: Piece): Piece {
    var sequence := p.panel.sequence + 1;
    var op, panel := p.op.(sequence := sequence), p.panel.(sequence := sequence);
    if op.stage.Adopted? then p.(op := op.(stage := Listing(Counted)), panel := panel)
    else if op.target == panel.HeldFs() then p.(op := op.(stage := Listing(NoClaim)), panel := panel)
    else if op.target.Here? then p.(op := op.(stage := Listing(Empty)), panel := panel)
    else if op.target in p.holds.counts then
      p.(op := op.(stage := Listing(Counted)), panel := panel, holds := Taken(p.holds, op.target))
    else p.(op := op.(stage := Asking), panel := panel)
  }

  /** The answer to a retain: `claim` goes on, and `navigate` with it. */
  function AfterAnswer(p: Piece): Piece {
    if p.op.stage.Refused? then p.(op := p.op.(stage := Over))
    else
      var c := Adopt(p.holds, p.op.target);
      var stage := if p.holds.disposed then Over else Listing(Counted);
      p.(op := p.op.(stage := stage), holds := c.holds, closes := c.closes)
  }

  /** The folder's listing, or a failure. */
  function AfterListed(p: Piece, ok: bool): Piece
    requires p.op.stage.Listing?
  {
    var op, claim := p.op.(stage := Over), p.op.stage.claim;
    if !ok || !p.Current() then
      var c := GiveBackClaim(p.holds, op.target, claim);
      p.(op := op, holds := c.holds, closes := c.closes)
    else if claim.NoClaim? then p.(op := op, panel := p.panel.(shown := op.target))
    else
      var c := if p.panel.held.Some? && p.panel.held.value.counted then GiveBack(p.holds, p.panel.held.value.fs)
               else Change(p.holds, multiset{});
      Piece(op, c.holds, Panel(op.target, Some(Held(op.target, claim.Counted?)), p.panel.sequence), c.closes)
  }

  // ---- The backend -----------------------------------------------------------------

  /** How many use each open filesystem, and which are registered. */
  datatype Backend = Backend(users: map<Fs, nat>, registered: set<Fs>)

  function RetainIn(b: Backend, fs: Fs): Backend {
    if fs in b.users then b.(users := b.users[fs := b.users[fs] + 1]) else b
  }

  function ConnectIn(b: Backend, fs: Fs): Backend {
    if fs in b.users then b.(users := b.users[fs := b.users[fs] + 1])
    else Backend(b.users[fs := 1], b.registered + {fs})
  }

  function ReleaseIn(b: Backend, fs: Fs): Backend {
    if fs !in b.users then b
    else if b.users[fs] <= 1 then Backend(b.users - {fs}, b.registered - {fs})
    else b.(users := b.users[fs := b.users[fs] - 1])
  }

  // ---- The whole -------------------------------------------------------------------

  datatype Tab = Tab(holds: Holds, panels: seq<Panel>)

  datatype System = System(
    backend: Backend,
    tabs: seq<Tab>,
    ops: seq<Op>,
    // Close messages on their way, and what transfer jobs and edited files use.
    closes: multiset<Fs>,
    uses: multiset<Fs>)
  {
    predicate Has(t: nat, p: nat) {
      t < |tabs| && p < |tabs[t].panels|
    }

    predicate Placed(i: nat) {
      i < |ops| && Has(ops[i].tab, ops[i].panel)
    }

    function At(i: nat): Piece
      requires Placed(i)
    {
      Piece(ops[i], tabs[ops[i].tab].holds, tabs[ops[i].tab].panels[ops[i].panel], multiset{})
    }

    /** A front-end step of operation `i`. */
    function Put(i: nat, p: Piece): System
      requires Placed(i)
    {
      var op := ops[i];
      var tab := Tab(p.holds, tabs[op.tab].panels[op.panel := p.panel]);
      this.(ops := ops[i := p.op], tabs := tabs[op.tab := tab], closes := closes + p.closes)
    }
  }

  const Started := System(Backend(map[], {}), [], [], multiset{}, multiset{})

  datatype Event =
    | OpenTab(panels: nat)
    | DisposeTab(tab: nat)
    | Plan(tab: nat, panel: nat, target: Fs)
    | Connect(i: nat)
    | Connected(i: nat)
    | Go(i: nat)
    | Retain(i: nat)
    | Answer(i: nat)
    | Listed(i: nat, ok: bool)
    | Close(fs: Fs)
    | UseOf(fs: Fs)
    | DropUse(fs: Fs)

  predicate Enabled(s: System, e: Event) {
    match e
    case OpenTab(_) => true
    case DisposeTab(t) => t < |s.tabs|
    case Plan(t, p, _) => s.Has(t, p)
    case Connect(i) => s.Placed(i) && s.ops[i].stage.Planned? && s.ops[i].target.Sftp?
    case Connected(i) => s.Placed(i) && s.ops[i].stage.Opened?
    case Go(i) => s.Placed(i) && (s.ops[i].stage.Planned? || s.ops[i].stage.Adopted?)
    case Retain(i) => s.Placed(i) && s.ops[i].stage.Asking?
    case Answer(i) => s.Placed(i) && (s.ops[i].stage.Retained? || s.ops[i].stage.Refused?)
    case Listed(i, _) => s.Placed(i) && s.ops[i].stage.Listing?
    case Close(fs) => fs in s.closes
    case UseOf(_) => true
    case DropUse(fs) => fs in s.uses
  }

  predicate OpsPlaced(s: System) {
    forall i :: 0 <= i < |s.ops| ==> s.Has(s.ops[i].tab, s.ops[i].panel)
  }

  function AfterDisposeTab(s: System, t: nat): System
    requires t < |s.tabs|
  {
    var c := Dispose(s.tabs[t].holds);
    var panels := seq(|s.tabs[t].panels|, p requires 0 <= p < |s.tabs[t].panels| =>
      s.tabs[t].panels[p].(held := None));
    s.(tabs := s.tabs[t := Tab(c.holds, panels)], closes := s.closes + c.closes)
  }

  function SetStage(s: System, i: nat, stage: Stage): System
    requires i < |s.ops|
  {
    s.(ops := s.ops[i := s.ops[i].(stage := stage)])
  }

  function Next(s: System, e: Event): System
    requires Enabled(s, e)
  {
    match e
    case OpenTab(n) =>
      s.(tabs := s.tabs + [Tab(Holds(map[], false), seq(n, _ => Panel(Here, None, 0)))])
    case DisposeTab(t) => AfterDisposeTab(s, t)
    case Plan(t, p, target) => s.(ops := s.ops + [Op(t, p, target, Planned, 0)])
    case Connect(i) => SetStage(s, i, Opened).(backend := ConnectIn(s.backend, s.ops[i].target))
    case Connected(i) => s.Put(i, AfterConnected(s.At(i)))
    case Go(i) => s.Put(i, AfterGo(s.At(i)))
    case Retain(i) =>
      var fs := s.ops[i].target;
      SetStage(s, i, if fs in s.backend.users then Retained else Refused).(backend := RetainIn(s.backend, fs))
    case Answer(i) => s.Put(i, AfterAnswer(s.At(i)))
    case Listed(i, ok) => s.Put(i, AfterListed(s.At(i), ok))
    case Close(fs) => s.(backend := ReleaseIn(s.backend, fs), closes := s.closes - multiset{fs})
    case UseOf(fs) =>
      s.(backend := RetainIn(s.backend, fs),
         uses := if fs in s.backend.users then s.uses + multiset{fs} else s.uses)
    case DropUse(fs) => s.(backend := ReleaseIn(s.backend, fs), uses := s.uses - multiset{fs})
  }

  // ---- Counting ----------------------------------------------------------------------

  function Sum<T>(s: seq<T>, weight: T -> nat): nat
    decreases |s|
  {
    if s == [] then 0 else weight(s[0]) + Sum(s[1..], weight)
  }

  lemma {:induction false} SumAppend<T>(s: seq<T>, x: T, weight: T -> nat)
    ensures Sum(s + [x], weight) == Sum(s, weight) + weight(x)
    decreases |s|
  {
    if s == [] {
      assert s + [x] == [x];
      assert [x][1..] == [];
    } else {
      assert (s + [x])[1..] == s[1..] + [x];
      SumAppend(s[1..], x, weight);
    }
  }

  lemma {:induction false} SumUpdate<T>(s: seq<T>, i: nat, x: T, weight: T -> nat)
    requires i < |s|
    ensures Sum(s[i := x], weight) + weight(s[i]) == Sum(s, weight) + weight(x)
    decreases |s|
  {
    if i == 0 {
      assert s[0 := x][1..] == s[1..];
    } else {
      assert s[i := x][1..] == s[1..][i - 1 := x];
      SumUpdate(s[1..], i - 1, x, weight);
    }
  }

  lemma {:induction false} SumAt<T>(s: seq<T>, i: nat, weight: T -> nat)
    requires i < |s|
    ensures weight(s[i]) <= Sum(s, weight)
    decreases |s|
  {
    if i > 0 {
      SumAt(s[1..], i - 1, weight);
    }
  }

  lemma {:induction false} SumOfNone<T>(s: seq<T>, weight: T -> nat)
    requires forall i :: 0 <= i < |s| ==> weight(s[i]) == 0
    ensures Sum(s, weight) == 0
    decreases |s|
  {
    if s != [] {
      SumOfNone(s[1..], weight);
    }
  }

  function TabsHold(fs: Fs): Tab -> nat {
    (tab: Tab) => if fs in tab.holds.counts then 1 else 0
  }

  function OpsRefer(fs: Fs): Op -> nat {
    (op: Op) => op.References(fs)
  }

  function OpsClaim(t: nat, fs: Fs): Op -> nat {
    (op: Op) => if op.tab == t then op.Claims(fs) else 0
  }

  function PanelsClaim(fs: Fs): Panel -> nat {
    (panel: Panel) => PanelClaims(panel, fs)
  }

  function PanelClaims(panel: Panel, fs: Fs): nat {
    if panel.held == Some(Held(fs, true)) then 1 else 0
  }

  /** Everything that keeps `fs` open: a close not yet arrived, a job or an edited
      file, a tab (once, whatever its claims), an answer on its way to a tab. */
  function Holders(s: System, fs: Fs): nat {
    s.closes[fs] + s.uses[fs] + Sum(s.tabs, TabsHold(fs)) + Sum(s.ops, OpsRefer(fs))
  }

  /** The claims of tab `t` on `fs` not yet given back. */
  function Owned(s: System, t: nat, fs: Fs): nat
    requires t < |s.tabs|
  {
    Sum(s.tabs[t].panels, PanelsClaim(fs)) + Sum(s.ops, OpsClaim(t, fs))
  }

  // ---- What every interleaving keeps ----------------------------------------------------

  function Users(b: Backend, fs: Fs): nat {
    if fs in b.users then b.users[fs] else 0
  }

  /** Open, registered and used are one. */
  ghost predicate BackendFits(b: Backend) {
    && b.registered == b.users.Keys
    && forall fs :: fs in b.users ==> b.users[fs] > 0
  }

  ghost predicate UsersFit(s: System) {
    forall fs :: Users(s.backend, fs) == Holders(s, fs)
  }

  /** Each count is the number of claims alive, and none is zero. */
  ghost predicate CountsFit(s: System, t: nat)
    requires t < |s.tabs|
  {
    var h := s.tabs[t].holds;
    && (h.disposed ==> h.counts == map[])
    && (forall fs :: fs in h.counts ==> h.counts[fs] > 0)
    && (!h.disposed ==> forall fs :: h.Count(fs) == Owned(s, t, fs))
  }

  /** A panel holds what it shows. */
  predicate PanelFits(panel: Panel) {
    && panel.shown == panel.HeldFs()
    && (panel.held.Some? ==> panel.held.value.counted == panel.held.value.fs.Sftp?)
  }

  /** A claim suits its filesystem, and a navigation without one stays on the
      filesystem shown for as long as it is the latest. */
  predicate OpFits(op: Op, disposed: bool, panel: Panel) {
    && (op.stage.Opened? || op.stage.Adopted? || op.stage.Asking? || op.stage.Retained? ==> op.target.Sftp?)
    && (op.Navigating() ==> op.sequence <= panel.sequence)
    && (!disposed && op.stage.Listing? ==>
          match op.stage.claim
          case NoClaim => op.sequence == panel.sequence ==> op.target == panel.HeldFs()
          case Empty => op.target.Here?
          case Counted => op.target.Sftp?)
  }

  /** Two navigations of a panel have different numbers. */
  predicate Apart(a: Op, b: Op) {
    a.tab == b.tab && a.panel == b.panel && a.Navigating() && b.Navigating() ==> a.sequence != b.sequence
  }

  ghost predicate FrontFits(s: System) {
    && OpsPlaced(s)
    && (forall t, p :: 0 <= t < |s.tabs| && 0 <= p < |s.tabs[t].panels| && !s.tabs[t].holds.disposed ==>
          PanelFits(s.tabs[t].panels[p]))
    && (forall i :: 0 <= i < |s.ops| ==> OpFits(s.ops[i], s.At(i).holds.disposed, s.At(i).panel))
    && (forall i, j :: 0 <= i < j < |s.ops| ==> Apart(s.ops[i], s.ops[j]))
  }

  ghost predicate Inv(s: System) {
    && BackendFits(s.backend)
    && UsersFit(s)
    && (forall t :: 0 <= t < |s.tabs| ==> CountsFit(s, t))
    && FrontFits(s)
  }

  /** A front-end step keeps the books: what it stops holding it closes, and a tab's
      counts change as the claims on it do. */
  ghost predicate Balanced(b: Piece, a: Piece) {
    && a.op.tab == b.op.tab && a.op.panel == b.op.panel && a.op.target == b.op.target
    && (forall fs :: a.closes[fs] + HeldIn(a.holds, fs) + a.op.References(fs)
                     == HeldIn(b.holds, fs) + b.op.References(fs))
    && a.holds.disposed == b.holds.disposed
    && (b.holds.disposed ==> a.holds == b.holds)
    && (forall fs :: fs in a.holds.counts ==> a.holds.counts[fs] > 0)
    && (!b.holds.disposed ==> forall fs ::
          a.holds.Count(fs) + PanelClaims(b.panel, fs) + b.op.Claims(fs)
          == b.holds.Count(fs) + PanelClaims(a.panel, fs) + a.op.Claims(fs))
  }

  function HeldIn(h: Holds, fs: Fs): nat {
    if fs in h.counts then 1 else 0
  }

  /** And keeps the panel's front: only the latest navigation changes what is shown. */
  ghost predicate Orderly(b: Piece, a: Piece) {
    && (!a.holds.disposed ==> PanelFits(a.panel))
    && OpFits(a.op, a.holds.disposed, a.panel)
    && a.panel.sequence >= b.panel.sequence
    && (a.panel.sequence > b.panel.sequence || a.panel.HeldFs() == b.panel.HeldFs()
        || (b.op.Navigating() && b.op.sequence == b.panel.sequence))
    && (a.op.Navigating() ==>
          (b.op.Navigating() && a.op.sequence == b.op.sequence) || a.op.sequence > b.panel.sequence)
  }

  /** What a step may rely on. */
  ghost predicate Sound(p: Piece) {
    && p.closes == multiset{}
    && (!p.holds.disposed ==> PanelFits(p.panel))
    && OpFits(p.op, p.holds.disposed, p.panel)
    && (p.holds.disposed ==> p.holds.counts == map[])
    && (forall fs :: fs in p.holds.counts ==> p.holds.counts[fs] > 0)
    && (!p.holds.disposed ==> forall fs :: p.op.Claims(fs) + PanelClaims(p.panel, fs) <= p.holds.Count(fs))
  }

  lemma ConnectedStep(p: Piece)
    requires Sound(p) && p.op.stage.Opened?
    ensures Balanced(p, AfterConnected(p)) && Orderly(p, AfterConnected(p))
  {
  }

  lemma GoStep(p: Piece)
    requires Sound(p) && (p.op.stage.Planned? || p.op.stage.Adopted?)
    ensures Balanced(p, AfterGo(p)) && Orderly(p, AfterGo(p))
  {
  }

  lemma AnswerStep(p: Piece)
    requires Sound(p) && (p.op.stage.Retained? || p.op.stage.Refused?)
    ensures Balanced(p, AfterAnswer(p)) && Orderly(p, AfterAnswer(p))
  {
  }

  /** A claim given back: the last one on a filesystem closes it. */
  lemma GivenBack(h: Holds, fs: Fs)
    requires forall g :: g in h.counts ==> h.counts[g] > 0
    requires fs in h.counts
    ensures var c := GiveBack(h, fs);
      && c.holds.disposed == h.disposed
      && (forall g :: g in c.holds.counts ==> c.holds.counts[g] > 0)
      && (forall g :: c.closes[g] + HeldIn(c.holds, g) == HeldIn(h, g))
      && (forall g :: c.holds.Count(g) + (if g == fs then 1 else 0) == h.Count(g))
  {
  }

  /** A navigation not shown after all gives its claim back. */
  lemma NotShownStep(p: Piece, ok: bool)
    requires Sound(p) && p.op.stage.Listing? && (!ok || !p.Current())
    ensures Balanced(p, AfterListed(p, ok))
  {
    if p.op.stage.claim.Counted? {
      if p.holds.disposed {
        assert GiveBack(p.holds, p.op.target) == Change(p.holds, multiset{});
      } else {
        assert p.op.Claims(p.op.target) == 1;
        GivenBack(p.holds, p.op.target);
      }
    }
    hide GiveBack;
    hide Sound;
  }

  /** One shown gives back the panel's old claim, and the panel keeps the new. */
  lemma ShownStep(p: Piece)
    requires Sound(p) && p.op.stage.Listing? && p.Current()
    ensures Balanced(p, AfterListed(p, true))
  {
    if p.panel.held.Some? && p.panel.held.value.counted {
      var fs := p.panel.held.value.fs;
      if p.holds.disposed {
        assert GiveBack(p.holds, fs) == Change(p.holds, multiset{});
      } else {
        assert PanelClaims(p.panel, fs) == 1;
        GivenBack(p.holds, fs);
      }
    }
    hide GiveBack;
  }

  lemma ListedOrder(p: Piece, ok: bool)
    requires Sound(p) && p.op.stage.Listing?
    ensures Orderly(p, AfterListed(p, ok))
  {
    hide HeldIn;
  }

  lemma IsSound(s: System, i: nat)
    requires Inv(s) && i < |s.ops|
    ensures Sound(s.At(i))
  {
    var p := s.At(i);
    var t := p.op.tab;
    assert CountsFit(s, t);
    assert FrontFits(s);
    if !p.holds.disposed {
      forall fs ensures p.op.Claims(fs) + PanelClaims(p.panel, fs) <= p.holds.Count(fs) {
        SumAt(s.tabs[t].panels, p.op.panel, PanelsClaim(fs));
        SumAt(s.ops, i, OpsClaim(t, fs));
      }
    }
    hide Inv;
  }

  lemma PutUsers(s: System, i: nat, p: Piece)
    requires OpsPlaced(s) && UsersFit(s) && i < |s.ops| && Balanced(s.At(i), p)
    ensures UsersFit(s.Put(i, p))
  {
    var op := s.ops[i];
    var t := s.Put(i, p);
    forall fs ensures Holders(t, fs) == Holders(s, fs) {
      SumUpdate(s.tabs, op.tab, t.tabs[op.tab], TabsHold(fs));
      SumUpdate(s.ops, i, p.op, OpsRefer(fs));
      assert p.closes[fs] + HeldIn(p.holds, fs) + p.op.References(fs)
          == HeldIn(s.At(i).holds, fs) + op.References(fs);
    }
  }

  lemma PutCounts(s: System, i: nat, p: Piece, t: nat)
    requires OpsPlaced(s) && i < |s.ops| && Balanced(s.At(i), p) && t < |s.tabs| && CountsFit(s, t)
    ensures CountsFit(s.Put(i, p), t)
  {
    var op := s.ops[i];
    var after := s.Put(i, p);
    if !s.tabs[t].holds.disposed {
      forall fs ensures after.tabs[t].holds.Count(fs) == Owned(after, t, fs) {
        assert s.tabs[t].holds.Count(fs) == Owned(s, t, fs);
        SumUpdate(s.ops, i, p.op, OpsClaim(t, fs));
        if t == op.tab {
          SumUpdate(s.tabs[t].panels, op.panel, p.panel, PanelsClaim(fs));
        }
      }
    }
  }

  lemma PutFront(s: System, i: nat, p: Piece)
    requires FrontFits(s) && i < |s.ops| && Balanced(s.At(i), p) && Orderly(s.At(i), p)
    ensures FrontFits(s.Put(i, p))
  {
    var after := s.Put(i, p);
    var b := s.At(i);
    assert OpsPlaced(after);
    forall j | 0 <= j < |s.ops| ensures OpFits(after.ops[j], after.At(j).holds.disposed, after.At(j).panel) {
      if j != i {
        assert OpFits(s.ops[j], s.At(j).holds.disposed, s.At(j).panel);
        assert if j < i then Apart(s.ops[j], s.ops[i]) else Apart(s.ops[i], s.ops[j]);
      }
    }
    forall j, k | 0 <= j < k < |s.ops| ensures Apart(after.ops[j], after.ops[k]) {
      assert Apart(s.ops[j], s.ops[k]);
      assert OpFits(s.ops[j], s.At(j).holds.disposed, s.At(j).panel);
      assert OpFits(s.ops[k], s.At(k).holds.disposed, s.At(k).panel);
    }
  }

  lemma PutKeeps(s: System, i: nat, p: Piece)
    requires Inv(s) && i < |s.ops| && Balanced(s.At(i), p) && Orderly(s.At(i), p)
    ensures Inv(s.Put(i, p))
  {
    PutUsers(s, i, p);
    forall t | 0 <= t < |s.tabs| ensures CountsFit(s.Put(i, p), t) {
      PutCounts(s, i, p, t);
    }
    PutFront(s, i, p);
    hide UsersFit;
    hide CountsFit;
    hide FrontFits;
    hide Balanced;
    hide Orderly;
  }

  // ---- The steps outside a panel -----------------------------------------------------------

  lemma OpenTabKeeps(s: System, n: nat)
    requires Inv(s)
    ensures Inv(Next(s, OpenTab(n)))
  {
    var after := Next(s, OpenTab(n));
    var tab := after.tabs[|s.tabs|];
    forall fs ensures Holders(after, fs) == Holders(s, fs) {
      SumAppend(s.tabs, tab, TabsHold(fs));
    }
    forall t | 0 <= t < |after.tabs| ensures CountsFit(after, t) {
      if t < |s.tabs| {
        assert CountsFit(s, t);
      } else {
        forall fs ensures Owned(after, t, fs) == 0 {
          SumOfNone(tab.panels, PanelsClaim(fs));
          SumOfNone(s.ops, OpsClaim(t, fs));
        }
      }
    }
    hide CountsFit;
    hide UsersFit;
    forall i | 0 <= i < |s.ops| ensures OpFits(after.ops[i], after.At(i).holds.disposed, after.At(i).panel) {
      assert OpFits(s.ops[i], s.At(i).holds.disposed, s.At(i).panel);
    }
  }

  /** A closing tab sends one close for each filesystem it holds. */
  lemma DisposeKeepsUsers(s: System, t: nat)
    requires UsersFit(s) && t < |s.tabs|
    ensures UsersFit(AfterDisposeTab(s, t))
  {
    var after := AfterDisposeTab(s, t);
    forall fs ensures Holders(after, fs) == Holders(s, fs) {
      SumUpdate(s.tabs, t, after.tabs[t], TabsHold(fs));
    }
  }

  lemma DisposeKeepsFront(s: System, t: nat)
    requires FrontFits(s) && t < |s.tabs|
    ensures FrontFits(AfterDisposeTab(s, t))
  {
    var after := AfterDisposeTab(s, t);
    forall i | 0 <= i < |s.ops| ensures OpFits(after.ops[i], after.At(i).holds.disposed, after.At(i).panel) {
      assert OpFits(s.ops[i], s.At(i).holds.disposed, s.At(i).panel);
    }
  }

  lemma DisposeKeeps(s: System, t: nat)
    requires Inv(s) && t < |s.tabs|
    ensures Inv(AfterDisposeTab(s, t))
  {
    var after := AfterDisposeTab(s, t);
    DisposeKeepsUsers(s, t);
    DisposeKeepsFront(s, t);
    forall u | 0 <= u < |after.tabs| ensures CountsFit(after, u) {
      assert CountsFit(s, u);
    }
    hide UsersFit;
    hide FrontFits;
  }

  lemma PlanFront(s: System, t: nat, p: nat, target: Fs)
    requires FrontFits(s) && s.Has(t, p)
    ensures FrontFits(Next(s, Plan(t, p, target)))
  {
    var after := Next(s, Plan(t, p, target));
    forall i | 0 <= i < |after.ops| ensures OpFits(after.ops[i], after.At(i).holds.disposed, after.At(i).panel) {
      if i < |s.ops| {
        assert OpFits(s.ops[i], s.At(i).holds.disposed, s.At(i).panel);
      }
    }
  }

  lemma PlanCounts(s: System, t: nat, p: nat, target: Fs, u: nat)
    requires s.Has(t, p) && u < |s.tabs| && CountsFit(s, u)
    ensures CountsFit(Next(s, Plan(t, p, target)), u)
  {
    var after := Next(s, Plan(t, p, target));
    forall fs ensures Owned(after, u, fs) == Owned(s, u, fs) {
      SumAppend(s.ops, Op(t, p, target, Planned, 0), OpsClaim(u, fs));
    }
  }

  lemma PlanKeeps(s: System, t: nat, p: nat, target: Fs)
    requires Inv(s) && s.Has(t, p)
    ensures Inv(Next(s, Plan(t, p, target)))
  {
    var after := Next(s, Plan(t, p, target));
    PlanFront(s, t, p, target);
    hide FrontFits;
    forall u | 0 <= u < |s.tabs| ensures CountsFit(after, u) {
      PlanCounts(s, t, p, target, u);
    }
    hide CountsFit;
    forall fs ensures Holders(after, fs) == Holders(s, fs) {
      SumAppend(s.ops, Op(t, p, target, Planned, 0), OpsRefer(fs));
    }
  }

  /** The backend's part of opening a server or of a claim: only the stage moves on,
      and the users with it. */
  lemma StageKeepsFront(s: System, i: nat, stage: Stage)
    requires FrontFits(s) && i < |s.ops|
    requires stage.Opened? || stage.Retained? || stage.Refused?
    requires if stage.Opened? then s.ops[i].stage.Planned? && s.ops[i].target.Sftp? else s.ops[i].stage.Asking?
    ensures FrontFits(SetStage(s, i, stage))
  {
    var after := SetStage(s, i, stage);
    forall j | 0 <= j < |s.ops| ensures OpFits(after.ops[j], after.At(j).holds.disposed, after.At(j).panel) {
      assert OpFits(s.ops[j], s.At(j).holds.disposed, s.At(j).panel);
    }
    forall j, k | 0 <= j < k < |s.ops| ensures Apart(after.ops[j], after.ops[k]) {
      assert Apart(s.ops[j], s.ops[k]);
    }
  }

  lemma StageKeepsCounts(s: System, i: nat, stage: Stage, t: nat)
    requires i < |s.ops| && t < |s.tabs| && CountsFit(s, t)
    requires !s.ops[i].stage.Listing? && !s.ops[i].stage.Adopted? && !stage.Listing? && !stage.Adopted?
    ensures CountsFit(SetStage(s, i, stage), t)
  {
    var after := SetStage(s, i, stage);
    forall fs ensures Owned(after, t, fs) == Owned(s, t, fs) {
      SumUpdate(s.ops, i, after.ops[i], OpsClaim(t, fs));
    }
  }

  lemma StageHolders(s: System, i: nat, stage: Stage, fs: Fs)
    requires i < |s.ops|
    ensures Holders(SetStage(s, i, stage), fs) + s.ops[i].References(fs)
         == Holders(s, fs) + s.ops[i].(stage := stage).References(fs)
  {
    SumUpdate(s.ops, i, s.ops[i].(stage := stage), OpsRefer(fs));
  }

  lemma OtherBackend(s: System, b: Backend, uses: multiset<Fs>, closes: multiset<Fs>)
    requires FrontFits(s) && forall t :: 0 <= t < |s.tabs| ==> CountsFit(s, t)
    ensures var after := s.(backend := b, uses := uses, closes := closes);
      FrontFits(after) && forall t :: 0 <= t < |s.tabs| ==> CountsFit(after, t)
  {
    var after := s.(backend := b, uses := uses, closes := closes);
    forall i | 0 <= i < |s.ops| ensures OpFits(after.ops[i], after.At(i).holds.disposed, after.At(i).panel) {
      assert OpFits(s.ops[i], s.At(i).holds.disposed, s.At(i).panel);
    }
    forall t | 0 <= t < |s.tabs| ensures CountsFit(after, t) {
      assert CountsFit(s, t);
      forall fs ensures Owned(after, t, fs) == Owned(s, t, fs) {
      }
    }
  }

  lemma ConnectKeeps(s: System, i: nat)
    requires Inv(s) && Enabled(s, Connect(i))
    ensures Inv(Next(s, Connect(i)))
  {
    var b := ConnectIn(s.backend, s.ops[i].target);
    BackendStep(s, i, Opened, b);
  }

  lemma RetainKeeps(s: System, i: nat)
    requires Inv(s) && Enabled(s, Retain(i))
    ensures Inv(Next(s, Retain(i)))
  {
    var fs := s.ops[i].target;
    BackendStep(s, i, if fs in s.backend.users then Retained else Refused, RetainIn(s.backend, fs));
  }

  lemma BackendStep(s: System, i: nat, stage: Stage, b: Backend)
    requires Inv(s) && i < |s.ops| && BackendFits(b)
    requires stage.Opened? || stage.Retained? || stage.Refused?
    requires if stage.Opened? then s.ops[i].stage.Planned? && s.ops[i].target.Sftp? else s.ops[i].stage.Asking?
    requires forall fs :: Users(b, fs) == Users(s.backend, fs) + s.ops[i].(stage := stage).References(fs)
    ensures Inv(SetStage(s, i, stage).(backend := b))
  {
    var moved := SetStage(s, i, stage);
    StageKeepsFront(s, i, stage);
    forall t | 0 <= t < |s.tabs| ensures CountsFit(moved, t) {
      StageKeepsCounts(s, i, stage, t);
    }
    hide CountsFit;
    hide FrontFits;
    OtherBackend(moved, b, s.uses, s.closes);
    var after := moved.(backend := b);
    forall fs ensures Users(b, fs) == Holders(after, fs) {
      StageHolders(s, i, stage, fs);
    }
  }

  /** A release takes one user off, and closes the filesystem just when none is left. */
  lemma Released(b: Backend, fs: Fs)
    requires BackendFits(b)
    ensures BackendFits(ReleaseIn(b, fs))
    ensures forall g :: g != fs ==> Users(ReleaseIn(b, fs), g) == Users(b, g)
    ensures Users(ReleaseIn(b, fs), fs) == if Users(b, fs) == 0 then 0 else Users(b, fs) - 1
    ensures fs in ReleaseIn(b, fs).registered <==> Users(b, fs) > 1
  {
  }

  /** And it finds the filesystem open. */
  lemma ReleaseKeeps(s: System, e: Event)
    requires Inv(s) && Enabled(s, e) && (e.Close? || e.DropUse?)
    ensures Inv(Next(s, e)) && e.fs in s.backend.registered
  {
    var after := Next(s, e);
    ReleaseFinds(s, e);
    Released(s.backend, e.fs);
    OtherBackend(s, after.backend, after.uses, after.closes);
    hide CountsFit;
    hide FrontFits;
    hide BackendFits;
    ReleaseUsers(s, e);
    hide Users;
    hide Holders;
  }

  lemma ReleaseFinds(s: System, e: Event)
    requires BackendFits(s.backend) && UsersFit(s) && Enabled(s, e) && (e.Close? || e.DropUse?)
    ensures Users(s.backend, e.fs) > 0 && e.fs in s.backend.registered
  {
    assert Users(s.backend, e.fs) == Holders(s, e.fs);
    hide Sum;
  }

  /** A user less, and a holder less. */
  lemma ReleaseUsers(s: System, e: Event)
    requires BackendFits(s.backend) && UsersFit(s) && Enabled(s, e) && (e.Close? || e.DropUse?)
    requires Users(s.backend, e.fs) > 0
    ensures UsersFit(Next(s, e))
  {
    var after := Next(s, e);
    Released(s.backend, e.fs);
    hide Sum;
    hide ReleaseIn;
    hide Users;
    hide BackendFits;
    forall fs ensures Users(after.backend, fs) == Holders(after, fs) {
      assert Users(s.backend, fs) == Holders(s, fs);
    }
  }

  lemma UseKeeps(s: System, fs: Fs)
    requires Inv(s)
    ensures Inv(Next(s, UseOf(fs)))
  {
    var after := Next(s, UseOf(fs));
    OtherBackend(s, after.backend, after.uses, after.closes);
    forall g ensures Users(after.backend, g) == Holders(after, g) {
      assert Users(s.backend, g) == Holders(s, g);
    }
    hide CountsFit;
    hide FrontFits;
  }

  // ---- Every run ------------------------------------------------------------------------

  lemma NextKeeps(s: System, e: Event)
    requires Inv(s) && Enabled(s, e)
    ensures Inv(Next(s, e))
  {
    match e
    case OpenTab(n) => OpenTabKeeps(s, n);
    case DisposeTab(t) => DisposeKeeps(s, t);
    case Plan(t, p, target) => PlanKeeps(s, t, p, target);
    case Connect(i) => ConnectKeeps(s, i);
    case Connected(i) =>
      IsSound(s, i);
      ConnectedStep(s.At(i));
      PutKeeps(s, i, AfterConnected(s.At(i)));
    case Go(i) =>
      IsSound(s, i);
      GoStep(s.At(i));
      PutKeeps(s, i, AfterGo(s.At(i)));
    case Retain(i) => RetainKeeps(s, i);
    case Answer(i) =>
      IsSound(s, i);
      AnswerStep(s.At(i));
      PutKeeps(s, i, AfterAnswer(s.At(i)));
    case Listed(i, ok) =>
      IsSound(s, i);
      ListedStep(s.At(i), ok);
      PutKeeps(s, i, AfterListed(s.At(i), ok));
    case Close(fs) => ReleaseKeeps(s, e);
    case UseOf(fs) => UseKeeps(s, fs);
    case DropUse(fs) => ReleaseKeeps(s, e);
  }

  lemma ListedStep(p: Piece, ok: bool)
    requires Sound(p) && p.op.stage.Listing?
    ensures Balanced(p, AfterListed(p, ok)) && Orderly(p, AfterListed(p, ok))
  {
    ListedOrder(p, ok);
    if ok && p.Current() {
      ShownStep(p);
    } else {
      NotShownStep(p, ok);
    }
    hide *;
  }

  lemma StartedFits()
    ensures Inv(Started)
  {
    forall fs ensures Holders(Started, fs) == 0 {
      assert Sum([], TabsHold(fs)) == 0 && Sum([], OpsRefer(fs)) == 0;
    }
  }

  /** Any number of tabs, panels, jobs and edits, their steps in any order. */
  function Run(s: System, events: seq<Event>): System
    decreases |events|
  {
    if events == [] then s
    else Run(if Enabled(s, events[0]) then Next(s, events[0]) else s, events[1..])
  }

  lemma {:induction false} RunKeeps(s: System, events: seq<Event>)
    requires Inv(s)
    ensures Inv(Run(s, events))
    decreases |events|
  {
    hide Inv;
    if events != [] {
      if Enabled(s, events[0]) {
        NextKeeps(s, events[0]);
        RunKeeps(Next(s, events[0]), events[1..]);
      } else {
        RunKeeps(s, events[1..]);
      }
    }
  }

  /** At every point of every run the backend counts exactly the holders, and a
      filesystem is open and registered just while it has one. */
  lemma UsersAreTheHolders(events: seq<Event>, fs: Fs)
    ensures var s := Run(Started, events);
      && Users(s.backend, fs) == Holders(s, fs)
      && (fs in s.backend.users <==> Holders(s, fs) > 0)
      && (fs in s.backend.registered <==> Holders(s, fs) > 0)
  {
    StartedFits();
    RunKeeps(Started, events);
    var s := Run(Started, events);
    assert UsersFit(s) && BackendFits(s.backend);
    hide CountsFit;
    hide FrontFits;
  }

  /** A remote filesystem on screen is open. */
  lemma ShownIsOpen(events: seq<Event>, t: nat, p: nat)
    requires Run(Started, events).Has(t, p)
    ensures var s := Run(Started, events);
      var shown := s.tabs[t].panels[p].shown;
      !s.tabs[t].holds.disposed && shown.Sftp? ==> shown in s.backend.users && shown in s.backend.registered
  {
    StartedFits();
    RunKeeps(Started, events);
    var s := Run(Started, events);
    var panel := s.tabs[t].panels[p];
    var shown := panel.shown;
    if !s.tabs[t].holds.disposed && shown.Sftp? {
      assert FrontFits(s) && CountsFit(s, t);
      assert PanelFits(panel);
      SumAt(s.tabs[t].panels, p, PanelsClaim(shown));
      assert PanelsClaim(shown)(panel) == 1;
      assert s.tabs[t].holds.Count(shown) == Owned(s, t, shown);
      SumAt(s.tabs, t, TabsHold(shown));
      assert TabsHold(shown)(s.tabs[t]) == 1;
      UsersAreTheHolders(events, shown);
    }
    hide *;
  }

  /** Nothing is left open once every tab has closed, the answers and close messages
      on their way have arrived, and no job or edited file is left. */
  lemma NothingIsLeftOpen(events: seq<Event>)
    requires var s := Run(Started, events);
      && s.closes == multiset{} && s.uses == multiset{}
      && (forall t :: 0 <= t < |s.tabs| ==> s.tabs[t].holds.disposed)
      && (forall i :: 0 <= i < |s.ops| ==> !s.ops[i].stage.Opened? && !s.ops[i].stage.Retained?)
    ensures Run(Started, events).backend == Backend(map[], {})
  {
    StartedFits();
    RunKeeps(Started, events);
    var s := Run(Started, events);
    forall fs ensures fs !in s.backend.users && fs !in s.backend.registered {
      forall t | 0 <= t < |s.tabs| ensures TabsHold(fs)(s.tabs[t]) == 0 {
        assert CountsFit(s, t);
      }
      SumOfNone(s.tabs, TabsHold(fs));
      SumOfNone(s.ops, OpsRefer(fs));
      UsersAreTheHolders(events, fs);
    }
  }

  /** A navigation asked for a claim until it lists, its messages answered. */
  function Answered(s: System, i: nat): System
    requires Enabled(s, Retain(i))
  {
    var t := Next(s, Retain(i));
    assert t.Placed(i);
    Next(t, Answer(i))
  }

  /** And panels do get there: a navigation in an open tab, to a filesystem that is
      open, left alone, shows its folder. */
  lemma NavigationShows(s: System, i: nat)
    requires Inv(s) && s.Placed(i) && s.ops[i].stage.Planned?
    requires !s.tabs[s.ops[i].tab].holds.disposed
    requires s.ops[i].target.Here? || s.ops[i].target in s.backend.users
    ensures Enabled(s, Go(i))
    ensures var op := s.ops[i];
      var started := Next(s, Go(i));
      && started.Placed(i)
      && (started.ops[i].stage.Asking? || started.ops[i].stage.Listing?)
      && var listing := if started.ops[i].stage.Asking? then Answered(started, i) else started;
         && Enabled(listing, Listed(i, true))
         && var done := Next(listing, Listed(i, true));
            done.Has(op.tab, op.panel) && done.tabs[op.tab].panels[op.panel].shown == op.target
  {
    IsSound(s, i);
    hide Inv;
    hide AfterListed;
    var started := Next(s, Go(i));
    var listing := if started.ops[i].stage.Asking? then Answered(started, i) else started;
    ListedShows(listing, i);
  }

  lemma ListedShows(s: System, i: nat)
    requires s.Placed(i) && s.ops[i].stage.Listing? && s.At(i).Current()
    ensures var op := s.ops[i];
      var done := Next(s, Listed(i, true));
      done.Has(op.tab, op.panel) && done.tabs[op.tab].panels[op.panel].shown == op.target
  {
    hide GiveBack;
  }

  /** A folder that could not be listed, or whose navigation was overtaken, is not shown;
      and no panel changes but the one that navigates. */
  lemma OthersStay(s: System, i: nat, ok: bool, t: nat, p: nat)
    requires Enabled(s, Listed(i, ok)) && s.Has(t, p)
    requires !ok || !s.At(i).Current() || t != s.ops[i].tab || p != s.ops[i].panel
    ensures var done := Next(s, Listed(i, ok)); done.Has(t, p) && done.tabs[t].panels[p] == s.tabs[t].panels[p]
  {
    hide GiveBack;
  }

  lemma RunOne(s: System, e: Event, more: seq<Event>)
    requires Enabled(s, e)
    ensures Run(s, [e] + more) == Run(Next(s, e), more)
  {
    assert ([e] + more)[1..] == more;
    hide Next;
    hide Enabled;
  }

  /** Operation `i` in the first panel of tab `t`, at this stage. */
  predicate Underway(s: System, t: nat, i: nat, target: Fs, stage: Stage) {
    && s.Has(t, 0) && !s.tabs[t].holds.disposed
    && i < |s.ops| && s.ops[i].(sequence := 0) == Op(t, 0, target, stage, 0)
  }

  lemma OpenPlans(s: System, target: Fs)
    ensures var t, i := |s.tabs|, |s.ops|;
      var planned := Next(Next(s, OpenTab(1)), Plan(t, 0, target));
      Underway(planned, t, i, target, Planned)
  {
  }

  lemma ConnectAdopts(s: System, t: nat, i: nat, target: Fs)
    requires Underway(s, t, i, target, Planned) && target.Sftp?
    ensures Enabled(s, Connect(i)) && Enabled(Next(s, Connect(i)), Connected(i))
    ensures Underway(Next(Next(s, Connect(i)), Connected(i)), t, i, target, Adopted)
  {
  }

  lemma AdoptedShows(s: System, t: nat, i: nat, target: Fs)
    requires Underway(s, t, i, target, Adopted)
    ensures Enabled(s, Go(i)) && Enabled(Next(s, Go(i)), Listed(i, true))
    ensures var done := Next(Next(s, Go(i)), Listed(i, true));
      done.Has(t, 0) && !done.tabs[t].holds.disposed && done.tabs[t].panels[0].shown == target
  {
    var listing := Next(s, Go(i));
    assert listing.Placed(i) && listing.ops[i].stage == Listing(Counted) && listing.At(i).Current();
    hide GiveBack;
  }

  /** Whatever else is open: a new tab, a server opened in it, and its folder listed, and
      the panel shows the server's filesystem. */
  lemma OpeningShows(s: System, target: Fs)
    requires target.Sftp?
    ensures var t, i := |s.tabs|, |s.ops|;
      var done := Run(s, [OpenTab(1)] + ([Plan(t, 0, target)] + ([Connect(i)] + ([Connected(i)]
                         + ([Go(i)] + ([Listed(i, true)] + []))))));
      done.Has(t, 0) && !done.tabs[t].holds.disposed && done.tabs[t].panels[0].shown == target
  {
    var t, i := |s.tabs|, |s.ops|;
    OpenPlans(s, target);
    var a := Next(s, OpenTab(1));
    assert Enabled(a, Plan(t, 0, target));
    var b := Next(a, Plan(t, 0, target));
    ConnectAdopts(b, t, i, target);
    var d := Next(Next(b, Connect(i)), Connected(i));
    AdoptedShows(d, t, i, target);
    hide Next;
    hide Enabled;
    RunOne(s, OpenTab(1), [Plan(t, 0, target)] + ([Connect(i)] + ([Connected(i)]
                          + ([Go(i)] + ([Listed(i, true)] + [])))));
    RunOne(a, Plan(t, 0, target), [Connect(i)] + ([Connected(i)] + ([Go(i)] + ([Listed(i, true)] + []))));
    RunOne(b, Connect(i), [Connected(i)] + ([Go(i)] + ([Listed(i, true)] + [])));
    RunOne(Next(b, Connect(i)), Connected(i), [Go(i)] + ([Listed(i, true)] + []));
    RunOne(d, Go(i), [Listed(i, true)] + []);
    RunOne(Next(d, Go(i)), Listed(i, true), []);
  }

  /** A tab that closes gives up what it holds; where nobody else holds it, it is closed. */
  lemma ClosingCloses(s: System, t: nat, fs: Fs)
    requires Inv(s) && t < |s.tabs| && fs in s.tabs[t].holds.counts && Holders(s, fs) == 1
    ensures var closed := Next(s, DisposeTab(t));
      && closed.tabs[t].holds.disposed && Enabled(closed, Close(fs))
      && fs !in Next(closed, Close(fs)).backend.registered
  {
    assert Users(s.backend, fs) == 1;
    Released(s.backend, fs);
    hide Inv;
    hide Holders;
  }

  // ---- What jobs and edited files use ----------------------------------------------------

  lemma UseStays(s: System, e: Event, fs: Fs)
    requires Enabled(s, e) && fs in s.uses && e != DropUse(fs)
    ensures fs in Next(s, e).uses
  {
  }

  lemma {:induction false} UsesStay(s: System, events: seq<Event>, fs: Fs)
    requires fs in s.uses && DropUse(fs) !in events
    ensures fs in Run(s, events).uses
    decreases |events|
  {
    hide Next;
    hide Enabled;
    if events != [] {
      if Enabled(s, events[0]) {
        UseStays(s, events[0], fs);
      }
      UsesStay(if Enabled(s, events[0]) then Next(s, events[0]) else s, events[1..], fs);
    }
  }

  /** A job or an edit on an open filesystem keeps it open until it is done, whatever tabs
      close meanwhile. */
  lemma UseKeepsOpen(before: seq<Event>, fs: Fs, later: seq<Event>)
    requires fs in Run(Started, before).backend.registered && DropUse(fs) !in later
    ensures fs in Run(Next(Run(Started, before), UseOf(fs)), later).backend.registered
  {
    StartedFits();
    RunKeeps(Started, before);
    var s := Run(Started, before);
    NextKeeps(s, UseOf(fs));
    var used := Next(s, UseOf(fs));
    assert BackendFits(s.backend);
    assert fs in used.uses;
    RunKeeps(used, later);
    UsesStay(used, later, fs);
    var last := Run(used, later);
    assert UsersFit(last) && BackendFits(last.backend);
    assert Users(last.backend, fs) == Holders(last, fs);
    hide CountsFit;
    hide FrontFits;
    hide Run;
    hide Next;
    hide Sum;
  }
}
