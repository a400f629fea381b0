/** The objects behind the ownership steps: `Claims`, the panel's `navigate` and
    `dispose`, and the backend's `SftpSessions`. Each method, a stretch of code without
    an await, does to its object just what the step of the same name does. */
module FsClaims {
  import opened Basics
  import opened Ownership

  /** The function a claim resolves with. */
  class Hold {
    const fs: Fs
    const counted: bool
    var released: bool

    constructor (fs: Fs, counted: bool)
      ensures this.fs == fs && this.counted == counted && !released
    {
      this.fs, this.counted, released := fs, counted, false;
    }
  }

  class Claims {
    var counts: map<Fs, nat>
    var disposed: bool
    // The close messages sent.
    var closes: multiset<Fs>

    ghost function View(): Holds
      reads this
    {
      Holds(counts, disposed)
    }

    /** What has happened since is the change `c`. */
    twostate predicate Did(c: Change)
      reads this
    {
      View() == c.holds && closes == old(closes) + c.closes
    }

    constructor ()
      ensures View() == Holds(map[], false) && closes == multiset{}
    {
      counts, disposed, closes := map[], false, multiset{};
    }

    method Close(fs: Fs)
      modifies this`closes
      ensures closes == old(closes) + multiset{fs}
    {
      closes := closes + multiset{fs};
    }

    method Take(fs: Fs) returns (hold: Hold)
      modifies this`counts
      ensures View() == Taken(old(View()), fs)
      ensures fresh(hold) && hold.fs == fs && hold.counted && !hold.released
    {
      var count := if fs in counts then counts[fs] else 0;
      counts := counts[fs := count + 1];
      hold := new Hold(fs, true);
    }

    /** `claim` before its await: null for a retain to be sent. */
    method Claim(fs: Fs) returns (hold: Hold?)
      modifies this`counts
      ensures hold == null <==> fs.Sftp? && fs !in old(counts)
      ensures View() == if fs.Sftp? && fs in old(counts) then Taken(old(View()), fs) else old(View())
      ensures hold != null ==> fresh(hold) && hold.fs == fs && !hold.released && hold.counted == fs.Sftp?
    {
      if fs.Here? {
        hold := new Hold(fs, false);
      } else if fs !in counts {
        hold := null;
      } else {
        hold := Take(fs);
      }
    }

    /** The references to a filesystem that the tab holds or has closed. */
    function Accounted(fs: Fs): nat
      reads this
    {
      closes[fs] + if fs in counts then 1 else 0
    }

    /** A reference just counted by the backend is accounted for, once: the tab holds it,
        or closes it. A closed tab holds nothing more. */
    method Referenced(fs: Fs)
      modifies this`counts, this`closes
      ensures Did(Ownership.Referenced(old(View()), fs))
      ensures Accounted(fs) == old(Accounted(fs)) + 1
      ensures forall other :: other != fs ==> Accounted(other) == old(Accounted(other))
      ensures disposed ==> counts == old(counts)
    {
      if disposed || fs in counts {
        Close(fs);
      } else {
        counts := counts[fs := 0];
      }
    }

    /** `claim` after its await. */
    method Answered(fs: Fs, retained: bool) returns (hold: Hold?)
      modifies this
      ensures Did(if retained then Ownership.Adopt(old(View()), fs) else Change(old(View()), multiset{}))
      ensures hold != null <==> retained && !disposed
      ensures hold != null ==> fresh(hold) && hold.fs == fs && hold.counted && !hold.released
    {
      if !retained {
        return null;
      }
      Referenced(fs);
      if disposed {
        return null;
      }
      hold := Take(fs);
    }

    method Adopt(fs: Fs) returns (hold: Hold)
      modifies this
      ensures Did(Ownership.Adopt(old(View()), fs))
      ensures fresh(hold) && hold.fs == fs && hold.counted == !disposed && !hold.released
    {
      Referenced(fs);
      if disposed {
        hold := new Hold(fs, false);
      } else {
        hold := Take(fs);
      }
    }

    /** A claim counts once, however often it is given back. */
    method GiveBack(hold: Hold)
      modifies this, hold
      ensures hold.released
      ensures Did(if hold.counted && !old(hold.released) then Ownership.GiveBack(old(View()), hold.fs)
                  else Change(old(View()), multiset{}))
    {
      if hold.released {
        return;
      }
      hold.released := true;
      if hold.counted {
        var count: int := if hold.fs in counts then counts[hold.fs] else 0;
        var left := count - 1;
        if left > 0 {
          counts := counts[hold.fs := left];
        } else if hold.fs in counts {
          counts := counts - {hold.fs};
          Close(hold.fs);
        }
      }
    }

    method Dispose()
      modifies this
      ensures Did(Ownership.Dispose(old(View())))
    {
      disposed := true;
      ghost var all := counts.Keys;
      var left, done := counts.Keys, {};
      while left != {}
        invariant left + done == all && left !! done
        invariant counts == old(counts) && disposed
        invariant closes == old(closes) + multiset(done)
        decreases left
      {
        var fs :| fs in left;
        OneMore(done, fs);
        Close(fs);
        left, done := left - {fs}, done + {fs};
      }
      counts := map[];
    }
  }

  lemma OneMore(done: set<Fs>, fs: Fs)
    requires fs !in done
    ensures multiset(done + {fs}) == multiset(done) + multiset{fs}
  {
  }

  class PanelView {
    const claims: Claims
    var shown: Fs
    var held: Hold?
    var loadSequence: nat

    ghost function View(): Panel
      reads this
    {
      Panel(shown, if held == null then None else Some(Held(held.fs, held.counted)), loadSequence)
    }

    constructor (claims: Claims)
      ensures this.claims == claims && View() == Panel(Here, None, 0)
    {
      this.claims, shown, held, loadSequence := claims, Here, null, 0;
    }

    /** The claim in hand is the one the stage says, and not the panel's. */
    ghost predicate InHand(op: Op, claim: Hold?)
      reads this, claim, held
    {
      && (claim != null ==> claim != held && claim.fs == op.target && !claim.released)
      && (held != null ==> !held.released)
      && match op.stage
         case Planned => claim == null
         case Adopted => claim != null && claim.counted
         case Listing(c) => if claim == null then c.NoClaim? else c == if claim.counted then Counted else Empty
         case _ => claim == null
    }

    /** The navigation, the tab's claims and the panel as one. */
    ghost function Now(op: Op, closes: multiset<Fs>): Piece
      reads this, claims
    {
      Piece(op, claims.View(), View(), closes)
    }

    /** `navigate` up to its first await. */
    method Go(op: Op, given: Hold?) returns (next: Op, claim: Hold?)
      requires op.stage.Planned? || op.stage.Adopted?
      requires InHand(op, given)
      modifies this`loadSequence, claims
      ensures Now(next, multiset{}) == AfterGo(old(Now(op, multiset{}))) && claims.closes == old(claims.closes)
      ensures InHand(next, claim)
    {
      loadSequence := loadSequence + 1;
      next, claim := op.(sequence := loadSequence), given;
      var current := if held == null then Here else held.fs;
      if claim == null && op.target != current {
        claim := claims.Claim(op.target);
        if claim == null {
          next := next.(stage := Asking);
          return;
        }
      }
      next := next.(stage := Listing(if claim == null then NoClaim else if claim.counted then Counted else Empty));
    }

    /** `navigate` when the retain has been answered. */
    method Answer(op: Op) returns (next: Op, claim: Hold?)
      requires op.stage.Retained? || op.stage.Refused?
      requires InHand(op, null)
      modifies claims
      ensures var a := AfterAnswer(old(Now(op, multiset{})));
        Now(next, a.closes) == a && claims.closes == old(claims.closes) + a.closes
      ensures InHand(next, claim)
    {
      claim := claims.Answered(op.target, op.stage.Retained?);
      next := op.(stage := if claim == null then Over else Listing(Counted));
    }

    /** `navigate` when the folder's listing has come, or failed; `finally` included. */
    method Listed(op: Op, claim: Hold?, ok: bool) returns (next: Op)
      requires op.stage.Listing? && InHand(op, claim)
      modifies this, claims, claim, held
      ensures var a := AfterListed(old(Now(op, multiset{})), ok);
        Now(next, a.closes) == a && claims.closes == old(claims.closes) + a.closes
      ensures InHand(next, null)
    {
      next := op.(stage := Over);
      var kept := false;
      if ok && op.sequence == loadSequence {
        shown := op.target;
        if claim != null {
          if held != null {
            claims.GiveBack(held);
          }
          held, kept := claim, true;
        }
      }
      if claim != null && !kept {
        claims.GiveBack(claim);
      }
    }

    method Dispose()
      requires held != null ==> !held.released
      modifies this`held, claims, held
      ensures View() == old(View()).(held := None)
      ensures claims.Did(if old(held) != null then
                           GiveBackClaim(old(claims.View()), old(held).fs, if old(held).counted then Counted else Empty)
                         else Change(old(claims.View()), multiset{}))
      ensures claims.counts.Keys <= old(claims.counts.Keys)
      ensures claims.closes == old(claims.closes) + multiset(old(claims.counts.Keys) - claims.counts.Keys)
    {
      ghost var h := claims.View();
      assert h.counts.Keys - h.counts.Keys == {};
      if held != null {
        GiveBackCloses(h, held.fs);
        hide GiveBack;
        claims.GiveBack(held);
      }
      held := null;
    }
  }

  /** Giving back a claim closes what it stops holding. */
  lemma GiveBackCloses(h: Holds, fs: Fs)
    ensures var c := GiveBack(h, fs);
      && c.holds.disposed == h.disposed && c.holds.counts.Keys <= h.counts.Keys
      && c.closes == multiset(h.counts.Keys - c.holds.counts.Keys)
  {
  }

  lemma ClosedInTurn(all: set<Fs>, some: set<Fs>, few: set<Fs>)
    requires few <= some <= all
    ensures multiset(all - some) + multiset(some - few) + multiset(few) == multiset(all)
  {
  }

  /** Closing a tab, panel by panel and then what is left of its claims, sends one
      close for each filesystem it held, whatever its panels hold. */
  method DisposeTab(claims: Claims, left: PanelView, right: PanelView)
    requires left != right && left.claims == claims && right.claims == claims
    requires left.held != null ==> !left.held.released && left.held != right.held
    requires right.held != null ==> !right.held.released
    modifies claims, left, right, left.held, right.held
    ensures claims.Did(Ownership.Dispose(old(claims.View())))
    ensures left.View() == old(left.View()).(held := None) && right.View() == old(right.View()).(held := None)
  {
    hide GiveBack;
    hide GiveBackClaim;
    ghost var all := claims.counts.Keys;
    left.Dispose();
    ghost var some := claims.counts.Keys;
    right.Dispose();
    ClosedInTurn(all, some, claims.counts.Keys);
    claims.Dispose();
  }

  /** The open filesystems, behind one lock. */
  class SftpSessions {
    var users: map<Fs, nat>
    var registered: set<Fs>

    ghost function View(): Backend
      reads this
    {
      Backend(users, registered)
    }

    /** What is open is registered, and in use. */
    ghost predicate Valid()
      reads this
    {
      BackendFits(View())
    }

    function Users(fs: Fs): nat
      reads this
    {
      if fs in users then users[fs] else 0
    }

    /** The users of one filesystem are now `n`, those of the others as many as before. */
    twostate predicate Only(fs: Fs, n: nat)
      reads this
    {
      Users(fs) == n && forall other :: other != fs ==> Users(other) == old(Users(other))
    }

    constructor ()
      ensures Valid() && View() == Backend(map[], {})
    {
      users, registered := map[], {};
    }

    method Retain(fs: Fs) returns (open: bool)
      requires Valid()
      modifies this
      ensures Valid() && View() == RetainIn(old(View()), fs)
      ensures open == (fs in old(registered)) && Only(fs, old(Users(fs)) + if open then 1 else 0)
    {
      open := fs in users;
      if open {
        users := users[fs := users[fs] + 1];
      }
    }

    method Release(fs: Fs)
      requires Valid()
      modifies this
      ensures Valid() && View() == ReleaseIn(old(View()), fs)
      ensures Only(fs, if old(Users(fs)) > 0 then old(Users(fs)) - 1 else 0)
      ensures fs in registered <==> old(Users(fs)) > 1
    {
      if fs !in users {
        return;
      }
      users := users[fs := if users[fs] > 0 then users[fs] - 1 else 0];
      if users[fs] == 0 {
        users := users - {fs};
        registered := registered - {fs};
      }
    }

    /** `sftp_connect`'s change: share what is open, or insert it. Either way it is open,
        and has one user more. */
    method Connect(fs: Fs)
      requires Valid()
      modifies this
      ensures Valid() && View() == ConnectIn(old(View()), fs)
      ensures fs in registered && Only(fs, old(Users(fs)) + 1)
    {
      if fs in users {
        users := users[fs := users[fs] + 1];
      } else {
        registered := registered + {fs};
        users := users[fs := 1];
      }
    }
  }
}
