/** The watcher as src-tauri/src/edit.rs writes it: an object whose fields each
    piece of `watch` and `sync` updates. Whatever happens to it, in whatever
    order, no save is lost. */
module EditSession {
  import opened Basics
  import opened EditProtocol
  import P = EditProtocol

  class Session {
    // The world as the session finds it.
    var copy: Option<Saved>
    var clock: nat
    var closed: bool
    ghost var completed: seq<byte>

    var remoteStamp: Option<Stamp>
    var synced: Option<nat>
    var attempted: Option<nat>
    var pending: bool
    var conflicted: bool
    var stopped: bool
    var retrying: bool
    var phase: Phase
    var shared: Shared
    var told: seq<Notice>

    ghost function Now(): P.Session
      reads this
    {
      P.Session(copy, clock, closed, completed, remoteStamp, synced, attempted, pending, conflicted, stopped,
                retrying, phase, shared, told)
    }

    ghost predicate Valid()
      reads this
    {
      Inv(Now())
    }

    /** What the exit prompt must not miss, and what a deleted folder must not have had. */
    ghost predicate Safe()
      reads this
    {
      && (phase.Finished? && phase.fate.Deleted? ==>
            ServerHadIt(phase.fate.copy, completed) && !pending && !conflicted)
      && (!shared.syncing && !shared.behind && LocalStamp() == shared.synced ==>
            ServerHadIt(copy, completed) && !pending && !conflicted)
    }

    constructor (bytes: seq<byte>, stamp: Stamp)
      ensures Valid() && Now() == Opened(bytes, stamp)
    {
      copy, clock, closed, completed := Some(Saved(0, bytes)), 1, false, bytes;
      remoteStamp, synced, attempted := Some(stamp), Some(0), None;
      pending, conflicted, stopped, retrying := false, false, false, false;
      phase, shared, told := Polling, Shared(Some(0), false, false), [];
    }

    function LocalStamp(): Option<nat>
      reads this
    {
      if copy.Some? then Some(copy.value.stamp) else None
    }

    method SavedSince() returns (now: Option<nat>)
      ensures now == Now().SavedSince()
      ensures Core(Now()) && now == None ==> ServerHadIt(copy, completed)
    {
      now := LocalStamp();
      if now == synced {
        now := None;
      }
    }

    method NewSave() returns (now: Option<nat>)
      ensures now == Now().NewSave()
    {
      now := SavedSince();
      if now == attempted {
        now := None;
      }
    }

    method HasChanges() returns (has: bool)
      ensures has == Now().HasChanges()
      ensures Core(Now()) && !has ==> ServerHadIt(copy, completed) && !pending
    {
      var saved := SavedSince();
      has := pending || saved.Some?;
    }

    /** A copy that isn't kept when the tab closes is deleted with its folder: the server
        has had it, no failure is pending and no question open. */
    method Kept() returns (kept: bool)
      ensures kept == Now().IsKept()
      ensures Core(Now()) && !kept ==> ServerHadIt(copy, completed) && !pending && !conflicted
    {
      if conflicted {
        return true;
      }
      var saved := SavedSince();
      if stopped {
        return saved.Some?; // nothing is tried again once it stopped
      }
      return pending || saved.Some?;
    }

    method Publish(syncing: bool)
      modifies this`shared
      ensures Now() == old(Now()).Publish(syncing)
    {
      shared := Shared(synced, syncing, pending || conflicted);
    }

    method Failed()
      modifies this`told, this`pending
      ensures Now() == old(Now()).Failed()
    {
      // Only news: the retries that fail after it are not told.
      if !pending {
        told := told + [TellFailed];
      }
      pending := true;
    }

    method StopSyncing()
      modifies this`told, this`pending, this`stopped
      ensures Now() == old(Now()).StopSyncing()
    {
      told := told + [TellStopped];
      stopped := true;
      pending := false;
    }

    /** The end of a turn of the loop; at the end of the last one the folder is
        deleted unless the copy is kept. */
    method EndTurn(stopping: bool)
      modifies this`shared, this`phase
      ensures Now() == old(Now()).EndTurn(stopping)
    {
      Publish(false);
      if stopping || closed {
        var kept := Kept();
        phase := Finished(if kept then Fate.Kept else Deleted(copy));
      } else {
        phase := Polling;
      }
    }

    method AfterSync(stopping: bool)
      modifies this`retrying, this`shared, this`phase
      ensures Now() == old(Now()).AfterSync(stopping)
    {
      retrying := pending;
      EndTurn(stopping);
    }

    /** Whether to sync, up to asking the server. */
    method Decide(due: bool, stopping: bool)
      modifies this`retrying, this`shared, this`phase
      ensures Now() == old(Now()).Decide(due, stopping)
    {
      var has := HasChanges();
      if due || (stopping && has) {
        Publish(true);
        var now := LocalStamp();
        if now == None {
          AfterSync(stopping); // the copy is gone: nothing to send
        } else {
          phase := Checking(now.value, stopping);
        }
      } else {
        EndTurn(stopping);
      }
    }

    /** The loop wakes: `cameBack` when the connection did. */
    method Wake(retryDue: bool, cameBack: bool, stopping: bool)
      requires phase.Polling?
      modifies this`retrying, this`shared, this`phase
      ensures Now() ==
              P.Wake(if cameBack then old(Now()).(retrying := true) else old(Now()), retryDue || cameBack, stopping)
    {
      if cameBack {
        retrying := true;
      }
      if stopped {
        EndTurn(stopping);
        return;
      }
      var due := pending && retrying && (retryDue || cameBack);
      var now := NewSave();
      if now.Some? {
        // The editor may still be writing.
        phase := Settling(now.value, due, stopping);
      } else {
        Decide(due, stopping);
      }
    }

    method StartUpload(now: nat, stopping: bool)
      modifies this`told, this`attempted, this`phase
      ensures Now() == old(Now()).StartUpload(now, stopping)
    {
      told := told + [TellUploading];
      attempted := Some(now);
      phase := Uploading(now, stopping);
    }

    /** The server was asked whether its file changed. */
    method Checked(stat: Stat)
      requires phase.Checking?
      modifies this
      ensures Now() == Next(old(Now()), StatReply(stat))
    {
      hide P.Session.AfterSync;
      hide P.Session.StopSyncing;
      hide P.Session.Failed;
      hide P.Session.StartUpload;
      var now, stopping := phase.now, phase.stopping;
      match stat {
        case StatFailed =>
          Failed();
          AfterSync(stopping);
        case Folder =>
          StopSyncing();
          AfterSync(stopping);
        case Missing =>
          told := told + [TellConflict];
          phase := Asking(now, stopping);
        case File(stamp) =>
          if remoteStamp.Some? && remoteStamp.value != stamp {
            told := told + [TellConflict];
            phase := Asking(now, stopping);
          } else {
            StartUpload(now, stopping);
          }
      }
    }

    /** The user answered (`None`: the tab closed while asked). */
    method Answered(overwrite: Option<bool>)
      requires phase.Asking? && (overwrite.None? ==> closed)
      modifies this
      ensures Now() == Next(old(Now()), Answer(overwrite))
    {
      hide P.Session.AfterSync;
      hide P.Session.StopSyncing;
      hide P.Session.Failed;
      hide P.Session.StartUpload;
      var now, stopping := phase.now, phase.stopping;
      match overwrite {
        case None =>
          conflicted := true;
          AfterSync(stopping);
        case Some(yes) =>
          if yes {
            StartUpload(now, stopping);
          } else {
            StopSyncing();
            AfterSync(stopping);
          }
      }
    }

    /** An upload went through. */
    method Arrive(now: nat, stamp: Option<Stamp>, ghost sent: seq<byte>)
      modifies this`remoteStamp, this`synced, this`pending, this`conflicted, this`completed, this`told
      ensures Now() == old(Now()).Arrived(now, stamp, sent)
    {
      remoteStamp := stamp;
      synced := Some(now);
      pending := false;
      conflicted := false;
      completed := sent;
      told := told + [TellUploaded];
    }

    /** The upload ended. */
    method UploadEnded(result: UploadResult)
      requires Enabled(Now(), UploadReply(result))
      modifies this
      ensures Now() == Next(old(Now()), UploadReply(result))
    {
      hide P.Session.AfterSync;
      hide P.Session.StopSyncing;
      hide P.Session.Failed;
      hide P.Session.StartUpload;
      hide P.Session.Arrived;
      var now, stopping := phase.now, phase.stopping;
      match result {
        case Uploaded(stamp, sent) =>
          Arrive(now, stamp, sent);
        case UploadFailed(isFolder, touched) =>
          if isFolder {
            StopSyncing();
          } else {
            if touched {
              // Nobody else's version is there to ask about.
              remoteStamp := None;
            }
            Failed();
          }
      }
      AfterSync(stopping);
    }

    /** Whatever happens next. */
    method Step(e: Event)
      requires Valid() && Enabled(Now(), e)
      modifies this
      ensures Valid() && Safe() && Now() == Next(old(Now()), e)
    {
      NextKeeps(Now(), e);
      Perform(e);
      InvSafe();
    }

    method Perform(e: Event)
      requires Enabled(Now(), e)
      modifies this
      ensures Now() == Next(old(Now()), e)
    {
      match e {
        case Save(bytes) => copy, clock := Some(Saved(clock, bytes)), clock + 1;
        case Remove => copy := None;
        case CloseTab => closed := true;
        case Tick(retryDue) => Wake(retryDue, false, false);
        case CameBack => Wake(false, true, false);
        case Stop => Wake(false, false, true);
        case Settled => Decide(phase.due || LocalStamp() == Some(phase.now), phase.stopping);
        case StatReply(stat) => Checked(stat);
        case Answer(overwrite) => Answered(overwrite);
        case UploadReply(result) => UploadEnded(result);
      }
    }

    lemma InvSafe()
      requires Valid()
      ensures Safe()
    {
    }

    predicate CanHappen(e: Event)
      reads this
      ensures CanHappen(e) == Enabled(Now(), e)
    {
      Enabled(P.Session(copy, clock, closed, [], remoteStamp, synced, attempted, pending, conflicted, stopped,
                        retrying, phase, shared, told), e)
    }

    /** A run: the events that can happen do, the others don't. */
    method Drive(events: seq<Event>)
      requires Valid()
      modifies this
      ensures Valid() && Safe() && Now() == Run(old(Now()), events)
    {
      hide Inv;
      hide Next;
      hide Enabled;
      hide Safe;
      ghost var last := Run(Now(), events);
      assert events[0..] == events;
      InvSafe();
      for i := 0 to |events|
        invariant Valid() && Safe() && Run(Now(), events[i..]) == last
      {
        assert events[i..][1..] == events[i + 1..];
        if CanHappen(events[i]) {
          Step(events[i]);
        }
      }
    }
  }

  /** A copy just opened, and anything at all after it. */
  method Watch(bytes: seq<byte>, stamp: Stamp, events: seq<Event>) returns (session: Session)
    ensures fresh(session) && session.Now() == Run(Opened(bytes, stamp), events)
    ensures session.phase.Finished? && session.phase.fate.Deleted? ==>
              ServerHadIt(session.phase.fate.copy, session.completed) && !session.pending && !session.conflicted
    ensures !session.shared.syncing && !session.shared.behind && session.LocalStamp() == session.shared.synced ==>
              ServerHadIt(session.copy, session.completed) && !session.pending && !session.conflicted
    ensures ToldOnce(session.told)
    ensures session.phase.Uploading? ==>
              MayUpload(History(Opened(bytes, stamp), Seen(Some(stamp), None, None), events))
  {
    session := new Session(bytes, stamp);
    session.Drive(events);
    NeverUnasked(bytes, stamp, events, Missing);
  }
}
