/** An edited copy of a remote file, watched for saves (src-tauri/src/edit.rs,
    `Session`). The watcher is a state machine: one step is what it does between
    two awaits, and anything may happen to the copy, the server and the tab in
    between. Every save gives the copy a stamp it never had before. */
module EditProtocol {
  import opened Basics

  /** The copy on disk. */
  datatype Saved = Saved(stamp: nat, bytes: seq<byte>)

  /** The server's file as `Stamp::of` sees it: size and seconds. */
  datatype Stamp = Stamp(size: Option<nat>, seconds: Option<nat>)

  /** What the last await was for. `stopping`: this turn was woken by the tab
      closing. */
  datatype Phase =
    | Polling
    | Settling(now: nat, due: bool, stopping: bool)
    | Checking(now: nat, stopping: bool)
    | Asking(now: nat, stopping: bool)
    | Uploading(now: nat, stopping: bool)
    | Finished(fate: Fate)

  /** What became of the copy: kept, or its folder deleted (with the copy as it
      was then). */
  datatype Fate = Kept | Deleted(copy: Option<Saved>)

  /** What the exit prompt goes by. */
  datatype Shared = Shared(synced: Option<nat>, syncing: bool, behind: bool)

  datatype Notice = TellUploading | TellUploaded | TellConflict | TellFailed | TellStopped

  datatype Session = Session(
    // The world: the copy, the stamps given out, whether the tab has closed, and
    // the bytes of the last completed download or upload.
    copy: Option<Saved>,
    clock: nat,
    closed: bool,
    completed: seq<byte>,
    // The session's fields.
    remoteStamp: Option<Stamp>,
    synced: Option<nat>,
    attempted: Option<nat>,
    pending: bool,
    conflicted: bool,
    stopped: bool,
    retrying: bool,
    phase: Phase,
    shared: Shared,
    told: seq<Notice>)
  {
    /** `local_stamp`. */
    function LocalStamp(): Option<nat> {
      if copy.Some? then Some(copy.value.stamp) else None
    }

    /** The stamp of a copy that isn't the one last transferred. */
    function SavedSince(): Option<nat> {
      if LocalStamp() != synced then LocalStamp() else None
    }

    /** The same, where it hasn't been tried either. */
    function NewSave(): Option<nat> {
      if SavedSince() != attempted then SavedSince() else None
    }

    /** The server lacks something. */
    predicate HasChanges() {
      pending || SavedSince().Some?
    }

    /** Whether the copy is kept on close. */
    predicate IsKept() {
      if conflicted then true
      else if stopped then SavedSince().Some?
      else pending || SavedSince().Some?
    }

    /** The exit prompt lists the copy. */
    predicate Unsynced() {
      shared.syncing || shared.behind || LocalStamp() != shared.synced
    }

    function Tell(notice: Notice): Session {
      this.(told := told + [notice])
    }

    function Publish(syncing: bool): Session {
      this.(shared := Shared(synced, syncing, pending || conflicted))
    }

    function Failed(): Session {
      (if pending then this else Tell(TellFailed)).(pending := true)
    }

    function StopSyncing(): Session {
      Tell(TellStopped).(stopped := true, pending := false)
    }

    // ---- One turn of the watch loop ---------------------------------------------

    /** The end of a turn: when the tab is closing the copy's fate is settled. */
    function EndTurn(stopping: bool): Session {
      var s := Publish(false);
      if !(stopping || closed) then s.(phase := Polling)
      else s.(phase := Finished(if IsKept() then Kept else Deleted(copy)))
    }

    function AfterSync(stopping: bool): Session {
      this.(retrying := pending).EndTurn(stopping)
    }

    /** Whether to sync, and its first step up to asking the server. */
    function Decide(due: bool, stopping: bool): Session {
      if due || (stopping && HasChanges()) then
        var s := Publish(true);
        if copy.None? then s.AfterSync(stopping) else s.(phase := Checking(copy.value.stamp, stopping))
      else EndTurn(stopping)
    }

    /** An upload went through: the copy as of `now` is on the server. */
    function Arrived(now: nat, stamp: Option<Stamp>, sent: seq<byte>): Session {
      Tell(TellUploaded).(
        remoteStamp := stamp, synced := Some(now), pending := false, conflicted := false, completed := sent)
    }

    function StartUpload(now: nat, stopping: bool): Session {
      Tell(TellUploading).(attempted := Some(now), phase := Uploading(now, stopping))
    }
  }

  /** What the server says when asked for the file. */
  datatype Stat = Missing | Folder | File(stamp: Stamp) | StatFailed

  /** How an upload ends: the file's stamp afterwards if it could be checked, and
      the bytes that were read from the copy and sent; or how far it got. */
  datatype UploadResult =
    | Uploaded(stamp: Option<Stamp>, sent: seq<byte>)
    | UploadFailed(isFolder: bool, touched: bool)

  datatype Event =
    // The world: a save by the editor, the copy removed, the tab closed.
    | Save(bytes: seq<byte>)
    | Remove
    | CloseTab
    // The watcher: woken by the timer, by the connection coming back, or by the
    // tab closing; and what each of its awaits brings. An answer of None is the
    // tab closing while the question is open.
    | Tick(retryDue: bool)
    | CameBack
    | Stop
    | Settled
    | StatReply(stat: Stat)
    | Answer(overwrite: Option<bool>)
    | UploadReply(result: UploadResult)

  /** Whether the event can happen now. An upload that read the copy while it was
      not saved again sent what is in it; otherwise it may have sent anything. */
  predicate Enabled(s: Session, e: Event) {
    match e
    case Save(_) => true
    case Remove => true
    case CloseTab => true
    case Tick(_) => s.phase.Polling?
    case CameBack => s.phase.Polling?
    case Stop => s.phase.Polling? && s.closed
    case Settled => s.phase.Settling?
    case StatReply(_) => s.phase.Checking?
    case Answer(overwrite) => s.phase.Asking? && (overwrite.None? ==> s.closed)
    case UploadReply(result) =>
      && s.phase.Uploading?
      && (result.Uploaded? && s.LocalStamp() == Some(s.phase.now) ==> result.sent == s.copy.value.bytes)
  }

  /** A turn begins: a new save is given time to be written out. */
  function Wake(s: Session, retryDue: bool, stopping: bool): Session {
    if s.stopped then s.EndTurn(stopping)
    else
      var due := s.pending && s.retrying && retryDue;
      if s.NewSave().Some? then s.(phase := Settling(s.NewSave().value, due, stopping))
      else s.Decide(due, stopping)
  }

  function Next(s: Session, e: Event): Session
    requires Enabled(s, e)
  {
    match e
    case Save(bytes) => s.(copy := Some(Saved(s.clock, bytes)), clock := s.clock + 1)
    case Remove => s.(copy := None)
    case CloseTab => s.(closed := true)
    case Tick(retryDue) => Wake(s, retryDue, false)
    case CameBack => Wake(s.(retrying := true), true, false)
    case Stop => Wake(s, false, true)
    case Settled =>
      s.Decide(s.phase.due || s.LocalStamp() == Some(s.phase.now), s.phase.stopping)
    case StatReply(stat) =>
      var now, stopping := s.phase.now, s.phase.stopping;
      if stat.StatFailed? then s.Failed().AfterSync(stopping)
      else if stat.Folder? then s.StopSyncing().AfterSync(stopping)
      else
        var changed := stat.Missing? || (s.remoteStamp.Some? && s.remoteStamp.value != stat.stamp);
        if changed then s.Tell(TellConflict).(phase := Asking(now, stopping)) else s.StartUpload(now, stopping)
    case Answer(overwrite) =>
      var now, stopping := s.phase.now, s.phase.stopping;
      if overwrite.None? then s.(conflicted := true).AfterSync(stopping)
      else if !overwrite.value then s.StopSyncing().AfterSync(stopping)
      else s.StartUpload(now, stopping)
    case UploadReply(result) =>
      var now, stopping := s.phase.now, s.phase.stopping;
      (match result
       case Uploaded(stamp, sent) => s.Arrived(now, stamp, sent)
       case UploadFailed(isFolder, touched) =>
         if isFolder then s.StopSyncing()
         else (if touched then s.(remoteStamp := None) else s).Failed())
      .AfterSync(stopping)
  }

  /** A copy just downloaded: its folder is fresh, the editor about to open it. */
  function Opened(bytes: seq<byte>, stamp: Stamp): Session {
    Session(Some(Saved(0, bytes)), 1, false, bytes,
            Some(stamp), Some(0), None, false, false, false, false, Polling, Shared(Some(0), false, false), [])
  }

  /** A run of the watcher: the events that can happen do, the others don't. */
  function Run(s: Session, events: seq<Event>): Session
    decreases |events|
  {
    if events == [] then s
    else Run(if Enabled(s, events[0]) then Next(s, events[0]) else s, events[1..])
  }

  // ---- No save is lost -----------------------------------------------------------------

  /** A copy with the stamp last uploaded (or downloaded) holds what was then
      transferred; stamps are older than the next one given out. */
  predicate Tracked(s: Session) {
    && (s.copy.Some? ==> s.copy.value.stamp < s.clock)
    && (s.synced.Some? ==> s.synced.value < s.clock)
    && (s.attempted.Some? ==> s.attempted.value < s.clock)
    && (s.copy.Some? && s.synced == Some(s.copy.value.stamp) ==> s.completed == s.copy.value.bytes)
  }

  /** The server has had all of this copy: it is gone, or holds exactly the bytes
      of the last completed download or upload. */
  predicate ServerHadIt(copy: Option<Saved>, completed: seq<byte>) {
    copy.Some? ==> copy.value.bytes == completed
  }

  /** Its folder is only ever deleted then, with no failed save waiting and no
      conflict left unanswered. */
  predicate NothingLost(s: Session) {
    s.phase.Finished? && s.phase.fate.Deleted? ==>
      ServerHadIt(s.phase.fate.copy, s.completed) && !s.pending && !s.conflicted
  }

  predicate Syncing(phase: Phase) {
    phase.Checking? || phase.Asking? || phase.Uploading?
  }

  /** The exit prompt reads the fields as of the last turn, or knows of a sync
      under way. */
  predicate PromptKnows(s: Session) {
    if Syncing(s.phase) then s.shared.syncing
    else s.shared == Shared(s.synced, false, s.pending || s.conflicted)
  }

  /** What an await is for was stamped before it; nothing syncs once stopped. */
  predicate PhaseFits(s: Session) {
    && (Syncing(s.phase) || s.phase.Settling? ==> s.phase.now < s.clock && !s.stopped)
    && (s.phase.Uploading? ==> s.attempted == Some(s.phase.now))
  }

  predicate IsOutcome(notice: Notice) {
    notice == TellFailed || notice == TellUploaded || notice == TellStopped
  }

  /** The last of the notices that say how a sync ended. */
  function LastOutcome(told: seq<Notice>): Option<Notice> {
    if told == [] then None
    else if IsOutcome(told[|told| - 1]) then Some(told[|told| - 1])
    else LastOutcome(told[..|told| - 1])
  }

  /** No failure is told again before another outcome. */
  predicate ToldOnce(told: seq<Notice>) {
    told != [] ==>
      && ToldOnce(told[..|told| - 1])
      && (told[|told| - 1] == TellFailed ==> LastOutcome(told[..|told| - 1]) != Some(TellFailed))
  }

  predicate Told(s: Session) {
    ToldOnce(s.told) && (s.pending <==> LastOutcome(s.told) == Some(TellFailed))
  }

  /** What holds in the middle of a turn. */
  predicate Core(s: Session) {
    Tracked(s) && Told(s) && (s.stopped ==> !s.pending)
  }

  predicate Inv(s: Session) {
    Core(s) && NothingLost(s) && PromptKnows(s) && PhaseFits(s)
  }

  lemma TellTold(told: seq<Notice>, notice: Notice)
    requires ToldOnce(told)
    requires notice == TellFailed ==> LastOutcome(told) != Some(TellFailed)
    ensures ToldOnce(told + [notice])
    ensures LastOutcome(told + [notice]) == if IsOutcome(notice) then Some(notice) else LastOutcome(told)
  {
    assert (told + [notice])[..|told|] == told;
  }

  lemma TellKeeps(s: Session, notice: Notice)
    requires Core(s) && !IsOutcome(notice)
    ensures Core(s.Tell(notice))
  {
    TellTold(s.told, notice);
  }

  lemma EndTurnKeeps(s: Session, stopping: bool)
    requires Core(s)
    ensures Inv(s.EndTurn(stopping))
  {
    hide Told;
    assert Told(s.EndTurn(stopping)) by { ToldAlike(s, s.EndTurn(stopping)); }
  }

  lemma ToldAlike(s: Session, t: Session)
    requires Told(s) && t.told == s.told && t.pending == s.pending
    ensures Told(t)
  {
  }

  lemma AfterSyncKeeps(s: Session, stopping: bool)
    requires Core(s)
    ensures Inv(s.AfterSync(stopping))
  {
    hide Told;
    ToldAlike(s, s.(retrying := s.pending));
    EndTurnKeeps(s.(retrying := s.pending), stopping);
  }

  lemma FailedKeeps(s: Session)
    requires Core(s) && !s.stopped
    ensures Core(s.Failed())
  {
    if !s.pending {
      TellTold(s.told, TellFailed);
    }
  }

  lemma StopSyncingKeeps(s: Session)
    requires Core(s)
    ensures Core(s.StopSyncing())
  {
    TellTold(s.told, TellStopped);
  }

  lemma StartUploadKeeps(s: Session, now: nat, stopping: bool)
    requires Inv(s) && Syncing(s.phase) && now < s.clock
    ensures Inv(s.StartUpload(now, stopping))
  {
    hide Told;
    TellKeeps(s, TellUploading);
    ToldAlike(s.Tell(TellUploading), s.StartUpload(now, stopping));
  }

  lemma DecideKeeps(s: Session, due: bool, stopping: bool)
    requires Core(s) && !s.stopped
    ensures Inv(s.Decide(due, stopping))
  {
    hide Told;
    ToldAlike(s, s.Publish(true));
    AfterSyncKeeps(s.Publish(true), stopping);
    EndTurnKeeps(s, stopping);
    if s.copy.Some? {
      ToldAlike(s, s.Publish(true).(phase := Checking(s.copy.value.stamp, stopping)));
    }
  }

  lemma WakeKeeps(s: Session, retryDue: bool, stopping: bool)
    requires Inv(s) && s.phase.Polling?
    ensures Inv(Wake(s, retryDue, stopping))
  {
    hide Told;
    EndTurnKeeps(s, stopping);
    if !s.stopped {
      DecideKeeps(s, s.pending && s.retrying && retryDue, stopping);
      if s.NewSave().Some? {
        ToldAlike(s, Wake(s, retryDue, stopping));
      }
    }
  }

  lemma NextKeeps(s: Session, e: Event)
    requires Inv(s) && Enabled(s, e)
    ensures Inv(Next(s, e))
  {
    hide Told;
    hide Session.AfterSync;
    hide Session.EndTurn;
    hide Session.Decide;
    hide Session.Failed;
    hide Session.StopSyncing;
    hide Session.StartUpload;
    hide Session.Tell;
    hide Wake;
    match e
    case Save(_) => ToldAlike(s, Next(s, e));
    case Remove => ToldAlike(s, Next(s, e));
    case CloseTab => ToldAlike(s, Next(s, e));
    case Tick(retryDue) => WakeKeeps(s, retryDue, false);
    case CameBack =>
      ToldAlike(s, s.(retrying := true));
      WakeKeeps(s.(retrying := true), true, false);
    case Stop => WakeKeeps(s, false, true);
    case Settled =>
      DecideKeeps(s, s.phase.due || s.LocalStamp() == Some(s.phase.now), s.phase.stopping);
    case StatReply(stat) => StatReplyKeeps(s, stat);
    case Answer(overwrite) => AnswerKeeps(s, overwrite);
    case UploadReply(result) => UploadReplyKeeps(s, result);
  }

  lemma StatReplyKeeps(s: Session, stat: Stat)
    requires Inv(s) && s.phase.Checking?
    ensures Inv(Next(s, StatReply(stat)))
  {
    hide Told;
    hide Session.AfterSync;
    hide Session.Failed;
    hide Session.StopSyncing;
    hide Session.StartUpload;
    if stat.StatFailed? {
      FailedKeeps(s);
      AfterSyncKeeps(s.Failed(), s.phase.stopping);
    } else if stat.Folder? {
      StopSyncingKeeps(s);
      AfterSyncKeeps(s.StopSyncing(), s.phase.stopping);
    } else {
      StartUploadKeeps(s, s.phase.now, s.phase.stopping);
      TellKeeps(s, TellConflict);
      ToldAlike(s.Tell(TellConflict), s.Tell(TellConflict).(phase := Asking(s.phase.now, s.phase.stopping)));
    }
  }

  lemma AnswerKeeps(s: Session, overwrite: Option<bool>)
    requires Inv(s) && s.phase.Asking? && (overwrite.None? ==> s.closed)
    ensures Inv(Next(s, Answer(overwrite)))
  {
    hide Told;
    hide Session.AfterSync;
    hide Session.StopSyncing;
    hide Session.StartUpload;
    if overwrite.None? {
      ToldAlike(s, s.(conflicted := true));
      AfterSyncKeeps(s.(conflicted := true), s.phase.stopping);
    } else if !overwrite.value {
      StopSyncingKeeps(s);
      AfterSyncKeeps(s.StopSyncing(), s.phase.stopping);
    } else {
      StartUploadKeeps(s, s.phase.now, s.phase.stopping);
    }
  }

  lemma UploadReplyKeeps(s: Session, result: UploadResult)
    requires Inv(s) && Enabled(s, UploadReply(result))
    ensures Inv(Next(s, UploadReply(result)))
  {
    hide Told;
    hide Session.AfterSync;
    hide Session.Arrived;
    hide Session.Failed;
    hide Session.StopSyncing;
    var stopping := s.phase.stopping;
    match result {
      case Uploaded(stamp, sent) =>
        ArrivedKeeps(s, s.phase.now, stamp, sent);
        AfterSyncKeeps(s.Arrived(s.phase.now, stamp, sent), stopping);
      case UploadFailed(isFolder, touched) =>
        if isFolder {
          StopSyncingKeeps(s);
          AfterSyncKeeps(s.StopSyncing(), stopping);
        } else {
          var t := if touched then s.(remoteStamp := None) else s;
          ToldAlike(s, t);
          FailedKeeps(t);
          AfterSyncKeeps(t.Failed(), stopping);
        }
    }
  }

  lemma ArrivedKeeps(s: Session, now: nat, stamp: Option<Stamp>, sent: seq<byte>)
    requires Core(s) && now < s.clock && !s.stopped
    requires s.LocalStamp() == Some(now) ==> sent == s.copy.value.bytes
    ensures Core(s.Arrived(now, stamp, sent))
  {
    TellTold(s.told, TellUploaded);
    hide ToldOnce;
    hide LastOutcome;
  }

  lemma {:induction false} RunInv(s: Session, events: seq<Event>)
    requires Inv(s)
    ensures Inv(Run(s, events))
    decreases |events|
  {
    hide Next;
    if events != [] {
      var e := events[0];
      if Enabled(s, e) {
        NextKeeps(s, e);
        RunInv(Next(s, e), events[1..]);
      } else {
        RunInv(s, events[1..]);
      }
    }
  }

  /** No save is lost: in every run, the copy's folder is deleted only when the
      server has had all that is in the copy, nothing failed is waiting and no
      conflict is unanswered. And the exit prompt never misses such a copy: when
      it isn't listed, the same holds. */
  lemma NoSaveIsLost(bytes: seq<byte>, stamp: Stamp, events: seq<Event>)
    ensures var s := Run(Opened(bytes, stamp), events);
      && (s.phase.Finished? && s.phase.fate.Deleted? ==>
            ServerHadIt(s.phase.fate.copy, s.completed) && !s.pending && !s.conflicted)
      && (!s.Unsynced() ==> ServerHadIt(s.copy, s.completed) && !s.pending && !s.conflicted)
      && ToldOnce(s.told)
  {
    RunInv(Opened(bytes, stamp), events);
  }

  /** And nothing is hoarded: where a turn ends for good, the folder is deleted
      exactly when the copy is gone or as last transferred, nothing waits to be
      tried again and no question is open. (Once uploads have stopped nothing is
      tried again.) */
  lemma DeletedExactlyWhen(s: Session, stopping: bool)
    requires Core(s) && (stopping || s.closed)
    ensures s.EndTurn(stopping).phase.fate.Deleted? <==>
            !s.conflicted && !s.pending && (s.copy.None? || s.synced == Some(s.copy.value.stamp))
  {
  }

  /** The turn a save starts, up to the upload. */
  lemma SaveIsChecked(s: Session, retryDue: bool)
    requires Inv(s) && s.phase.Polling? && !s.stopped && !s.closed && s.NewSave().Some?
    ensures Enabled(s, Tick(retryDue)) && Enabled(Next(s, Tick(retryDue)), Settled)
    ensures Next(Next(s, Tick(retryDue)), Settled)
         == s.Publish(true).(phase := Checking(s.copy.value.stamp, false))
  {
  }

  /** And its end, on a server whose file has not changed. */
  lemma CheckedIsSent(s: Session, stamp: Stamp, after: Option<Stamp>)
    requires Core(s) && s.phase.Checking? && !s.phase.stopping && !s.closed && !s.stopped
    requires s.copy.Some? && s.phase.now == s.copy.value.stamp
    requires s.remoteStamp.None? || s.remoteStamp == Some(stamp)
    ensures Enabled(s, StatReply(File(stamp)))
    ensures var up := Next(s, StatReply(File(stamp)));
      && Enabled(up, UploadReply(Uploaded(after, s.copy.value.bytes)))
      && var t := Next(up, UploadReply(Uploaded(after, s.copy.value.bytes)));
         && t.completed == s.copy.value.bytes && t.copy == s.copy
         && !t.HasChanges() && !t.Unsynced() && t.phase.Polling?
  {
  }

  /** And saves do go up: one left alone, on a server that answers and whose file has
      not changed, has arrived after one turn of the watcher. */
  lemma SaveIsSent(s: Session, retryDue: bool, stamp: Stamp, after: Option<Stamp>)
    requires Inv(s) && s.phase.Polling? && !s.stopped && !s.closed && s.NewSave().Some?
    requires s.remoteStamp.None? || s.remoteStamp == Some(stamp)
    ensures var t := Run(s, [Tick(retryDue), Settled, StatReply(File(stamp)),
                             UploadReply(Uploaded(after, s.copy.value.bytes))]);
      && t.completed == s.copy.value.bytes && t.copy == s.copy
      && !t.HasChanges() && !t.Unsynced() && t.phase.Polling?
  {
    var last := UploadReply(Uploaded(after, s.copy.value.bytes));
    var checking := Next(Next(s, Tick(retryDue)), Settled);
    SaveIsChecked(s, retryDue);
    assert Core(checking);
    CheckedIsSent(checking, stamp, after);
    hide Next;
    hide Enabled;
    hide Inv;
    hide Core;
    RunOne(Next(checking, StatReply(File(stamp))), last, []);
    RunOne(checking, StatReply(File(stamp)), [last]);
    RunOne(Next(s, Tick(retryDue)), Settled, [StatReply(File(stamp)), last]);
    RunOne(s, Tick(retryDue), [Settled, StatReply(File(stamp)), last]);
    assert [last] + [] == [last];
    assert [StatReply(File(stamp))] + [last] == [StatReply(File(stamp)), last];
    assert [Settled] + [StatReply(File(stamp)), last] == [Settled, StatReply(File(stamp)), last];
    assert [Tick(retryDue)] + [Settled, StatReply(File(stamp)), last]
        == [Tick(retryDue), Settled, StatReply(File(stamp)), last];
  }

  lemma RunOne(s: Session, e: Event, more: seq<Event>)
    requires Enabled(s, e)
    ensures Run(s, [e] + more) == Run(Next(s, e), more)
  {
    assert ([e] + more)[1..] == more;
  }

  /** A tab that closes sends what the server lacks first. */
  lemma ClosingSyncsFirst(s: Session)
    requires Inv(s) && s.phase.Polling? && !s.stopped && s.HasChanges() && s.copy.Some?
    ensures Enabled(s, CloseTab) && Enabled(Next(s, CloseTab), Stop)
    ensures var t := Next(Next(s, CloseTab), Stop);
      t.closed && (t.phase.Checking? || (t.phase.Settling? && Next(t, Settled).phase.Checking?))
  {
  }

  /** How far the watcher is from its end. */
  function ToGo(phase: Phase): nat {
    match phase
    case Polling => 5
    case Settling(_, _, _) => 4
    case Checking(_, _) => 3
    case Asking(_, _) => 2
    case Uploading(_, _) => 1
    case Finished(_) => 0
  }

  predicate OfTheWorld(e: Event) {
    e.Save? || e.Remove? || e.CloseTab?
  }

  /** No further from the end than `n`; and at the end the fate fits the copy. */
  predicate Within(t: Session, n: nat) {
    && ToGo(t.phase) <= n
    && (t.phase.Finished? ==> t.phase.fate == if t.IsKept() then Kept else Deleted(t.copy))
  }

  lemma AfterSyncEnds(s: Session, stopping: bool)
    requires s.closed
    ensures Within(s.AfterSync(stopping), 0) && Within(s.EndTurn(stopping), 0)
  {
  }

  lemma DecideEnds(s: Session, due: bool, stopping: bool)
    requires s.closed
    ensures Within(s.Decide(due, stopping), 3)
  {
    hide Session.AfterSync;
    hide Session.EndTurn;
    hide Session.HasChanges;
    hide Session.IsKept;
    AfterSyncEnds(s, stopping);
    AfterSyncEnds(s.Publish(true), stopping);
  }

  lemma WakeEnds(s: Session, retryDue: bool, stopping: bool)
    requires s.closed
    ensures Within(Wake(s, retryDue, stopping), 4)
  {
    hide Session.Decide;
    hide Session.EndTurn;
    hide Session.NewSave;
    hide Session.IsKept;
    AfterSyncEnds(s, stopping);
    DecideEnds(s, s.pending && s.retrying && retryDue, stopping);
  }

  lemma CheckEnds(s: Session, stat: Stat)
    requires s.closed && s.phase.Checking?
    ensures Within(Next(s, StatReply(stat)), 2)
  {
    hide Session.AfterSync;
    hide Session.IsKept;
    AfterSyncEnds(s.StopSyncing(), s.phase.stopping);
    AfterSyncEnds(s.Failed(), s.phase.stopping);
  }

  lemma AnswerEnds(s: Session, overwrite: Option<bool>)
    requires s.closed && s.phase.Asking?
    ensures Within(Next(s, Answer(overwrite)), 1)
  {
    hide Session.AfterSync;
    hide Session.IsKept;
    AfterSyncEnds(s.StopSyncing(), s.phase.stopping);
    AfterSyncEnds(s.(conflicted := true), s.phase.stopping);
  }

  lemma UploadEnds(s: Session, result: UploadResult)
    requires s.closed && Enabled(s, UploadReply(result))
    ensures Within(Next(s, UploadReply(result)), 0)
  {
    hide Session.AfterSync;
    hide Session.IsKept;
    hide Session.LocalStamp;
    hide Within;
    var stopping := s.phase.stopping;
    match result {
      case Uploaded(stamp, sent) => AfterSyncEnds(s.Arrived(s.phase.now, stamp, sent), stopping);
      case UploadFailed(isFolder, touched) =>
        if isFolder {
          AfterSyncEnds(s.StopSyncing(), stopping);
        } else {
          AfterSyncEnds((if touched then s.(remoteStamp := None) else s).Failed(), stopping);
        }
    }
  }

  lemma StepEnds(s: Session, e: Event)
    requires s.closed && Enabled(s, e) && !OfTheWorld(e)
    ensures ToGo(s.phase) > 0 && Within(Next(s, e), ToGo(s.phase) - 1)
  {
    hide Session.Decide;
    hide Session.LocalStamp;
    hide Within;
    hide Wake;
    match e
    case Tick(retryDue) => WakeEnds(s, retryDue, false);
    case CameBack => WakeEnds(s.(retrying := true), true, false);
    case Stop => WakeEnds(s, false, true);
    case Settled => DecideEnds(s, s.phase.due || s.LocalStamp() == Some(s.phase.now), s.phase.stopping);
    case StatReply(stat) =>
      CheckEnds(s, stat);
      hide Next;
    case Answer(overwrite) =>
      AnswerEnds(s, overwrite);
      hide Next;
    case UploadReply(result) =>
      UploadEnds(s, result);
      hide Next;
  }

  /** Once the tab has closed, every step of the watcher brings it nearer its end; and there
      the folder is deleted exactly as `DeletedExactlyWhen` says. */
  lemma ClosedEnds(s: Session, e: Event)
    requires Inv(s) && s.closed && Enabled(s, e) && !OfTheWorld(e)
    ensures var t := Next(s, e);
      && ToGo(t.phase) < ToGo(s.phase)
      && (t.phase.Finished? ==>
            && (t.phase.fate == Kept || t.phase.fate == Deleted(t.copy))
            && (t.phase.fate.Deleted? <==>
                  !t.conflicted && !t.pending && (t.copy.None? || t.synced == Some(t.copy.value.stamp))))
  {
    NextKeeps(s, e);
    StepEnds(s, e);
    assert Core(Next(s, e));
    hide Next;
    hide Tracked;
    hide Told;
    hide Enabled;
  }

  // ---- When the user is asked --------------------------------------------------------------

  /** What the server was last known to have (`known`: the stamp of the last transfer;
      None: an upload landed unseen, or was cut off), what the last check found there
      since, and the user's answer since that. Kept from the events alone. */
  datatype Seen = Seen(known: Option<Stamp>, check: Option<Stat>, answer: Option<bool>)

  function Noted(seen: Seen, e: Event): Seen {
    match e
    case StatReply(stat) => seen.(check := Some(stat), answer := None)
    case Answer(overwrite) => seen.(answer := overwrite)
    case UploadReply(Uploaded(stamp, _)) => Seen(stamp, None, None)
    case UploadReply(UploadFailed(isFolder, touched)) =>
      Seen(if touched && !isFolder then None else seen.known, None, None)
    case _ => seen
  }

  /** The same over a run: the events that can happen do, the others don't. */
  function History(s: Session, seen: Seen, events: seq<Event>): Seen
    decreases |events|
  {
    if events == [] then seen
    else if Enabled(s, events[0]) then History(Next(s, events[0]), Noted(seen, events[0]), events[1..])
    else History(s, seen, events[1..])
  }

  /** The server's file is not the one last transferred, as far as that is known. */
  predicate Differs(known: Option<Stamp>, stat: Stat) {
    stat.Missing? || (stat.File? && known.Some? && stat.stamp != known.value)
  }

  /** Found as last transferred, or found at all while that is unknown; or the user said yes. */
  predicate MayUpload(seen: Seen) {
    && seen.check.Some?
    && (if Differs(seen.known, seen.check.value) then seen.answer == Some(true) else seen.check.value.File?)
  }

  predicate Asked(s: Session, seen: Seen) {
    && s.remoteStamp == seen.known
    && (s.phase.Asking? ==> seen.check.Some? && Differs(seen.known, seen.check.value) && seen.answer.None?)
    && (s.phase.Uploading? ==> MayUpload(seen))
  }

  /** A step that asks nobody and uploads nothing. */
  predicate Quiet(stamp: Option<Stamp>, t: Session) {
    t.remoteStamp == stamp && !t.phase.Asking? && !t.phase.Uploading?
  }

  lemma AfterSyncQuiet(s: Session, stopping: bool)
    ensures Quiet(s.remoteStamp, s.AfterSync(stopping))
  {
    hide Session.IsKept;
  }

  lemma DecideQuiet(s: Session, due: bool, stopping: bool)
    ensures Quiet(s.remoteStamp, s.Decide(due, stopping))
  {
    hide Session.IsKept;
    hide Session.HasChanges;
    AfterSyncQuiet(s.Publish(true), stopping);
    hide Session.AfterSync;
  }

  lemma WakeQuiet(s: Session, retryDue: bool, stopping: bool)
    ensures Quiet(s.remoteStamp, Wake(s, retryDue, stopping))
  {
    hide Session.Decide;
    hide Session.NewSave;
    hide Session.IsKept;
    DecideQuiet(s, s.pending && s.retrying && retryDue, stopping);
  }

  lemma StampsAfter(s: Session, now: nat, stamp: Option<Stamp>, sent: seq<byte>)
    ensures s.Arrived(now, stamp, sent).remoteStamp == stamp
    ensures s.StopSyncing().remoteStamp == s.Failed().remoteStamp == s.remoteStamp
  {
  }

  lemma UploadReplyQuiet(s: Session, seen: Seen, result: UploadResult)
    requires s.remoteStamp == seen.known && Enabled(s, UploadReply(result))
    ensures Quiet(Noted(seen, UploadReply(result)).known, Next(s, UploadReply(result)))
  {
    hide Session.AfterSync;
    hide Session.Arrived;
    hide Session.StopSyncing;
    hide Session.Failed;
    hide Session.LocalStamp;
    hide Quiet;
    var stopping := s.phase.stopping;
    match result {
      case Uploaded(stamp, sent) =>
        StampsAfter(s, s.phase.now, stamp, sent);
        AfterSyncQuiet(s.Arrived(s.phase.now, stamp, sent), stopping);
      case UploadFailed(isFolder, touched) =>
        if isFolder {
          StampsAfter(s, 0, None, []);
          AfterSyncQuiet(s.StopSyncing(), stopping);
        } else {
          var t := if touched then s.(remoteStamp := None) else s;
          StampsAfter(t, 0, None, []);
          AfterSyncQuiet(t.Failed(), stopping);
        }
    }
  }

  lemma StatReplyAsks(s: Session, stat: Stat)
    requires s.phase.Checking?
    ensures var t := Next(s, StatReply(stat));
      if Differs(s.remoteStamp, stat) then t.remoteStamp == s.remoteStamp && t.phase.Asking?
      else if stat.File? then t.remoteStamp == s.remoteStamp && t.phase.Uploading?
      else Quiet(s.remoteStamp, t)
  {
    hide Session.AfterSync;
    AfterSyncQuiet(s.Failed(), s.phase.stopping);
    AfterSyncQuiet(s.StopSyncing(), s.phase.stopping);
  }

  lemma AnswerQuiet(s: Session, overwrite: Option<bool>)
    requires s.phase.Asking? && overwrite != Some(true) && (overwrite.None? ==> s.closed)
    ensures Quiet(s.remoteStamp, Next(s, Answer(overwrite)))
  {
    hide Session.AfterSync;
    AfterSyncQuiet(s.(conflicted := true), s.phase.stopping);
    AfterSyncQuiet(s.StopSyncing(), s.phase.stopping);
  }

  lemma AskedStep(s: Session, seen: Seen, e: Event)
    requires Asked(s, seen) && Enabled(s, e)
    ensures Asked(Next(s, e), Noted(seen, e))
  {
    hide Session.AfterSync;
    hide Session.Decide;
    hide Session.LocalStamp;
    hide Wake;
    match e
    case Save(_) =>
    case Remove =>
    case CloseTab =>
    case Tick(retryDue) => WakeQuiet(s, retryDue, false);
    case CameBack => WakeQuiet(s.(retrying := true), true, false);
    case Stop => WakeQuiet(s, false, true);
    case Settled => DecideQuiet(s, s.phase.due || s.LocalStamp() == Some(s.phase.now), s.phase.stopping);
    case StatReply(stat) =>
      StatReplyAsks(s, stat);
      hide Next;
    case Answer(overwrite) =>
      if overwrite != Some(true) {
        AnswerQuiet(s, overwrite);
        hide Next;
      }
    case UploadReply(result) =>
      UploadReplyQuiet(s, seen, result);
      hide Next;
  }

  lemma {:induction false} AskedRun(s: Session, seen: Seen, events: seq<Event>)
    requires Asked(s, seen)
    ensures Asked(Run(s, events), History(s, seen, events))
    decreases |events|
  {
    hide Next;
    hide Enabled;
    hide Noted;
    hide Asked;
    if events != [] {
      var e := events[0];
      if Enabled(s, e) {
        AskedStep(s, seen, e);
        AskedRun(Next(s, e), Noted(seen, e), events[1..]);
      } else {
        AskedRun(s, seen, events[1..]);
      }
    }
  }

  /** Nobody's version is overwritten unasked: in every run an upload is under way only if
      the last check found the file as last transferred (or found it while that was unknown),
      or the user answered yes after it. And a check asks exactly when it does not. */
  lemma NeverUnasked(bytes: seq<byte>, stamp: Stamp, events: seq<Event>, stat: Stat)
    ensures var s := Run(Opened(bytes, stamp), events);
      var seen := History(Opened(bytes, stamp), Seen(Some(stamp), None, None), events);
      && (s.phase.Uploading? ==> MayUpload(seen))
      && (s.phase.Checking? ==>
            var t := Next(s, StatReply(stat));
            && (t.phase.Asking? <==> Differs(seen.known, stat))
            && (t.phase.Uploading? <==> stat.File? && !Differs(seen.known, stat))
            && t.told == s.told + if Differs(seen.known, stat) then [TellConflict]
                                  else if stat.File? then [TellUploading]
                                  else if stat.Folder? then [TellStopped]
                                  else if s.pending then [] else [TellFailed])
  {
    var seen := Seen(Some(stamp), None, None);
    AskedRun(Opened(bytes, stamp), seen, events);
    hide Run;
    hide History;
  }

  /** A no stops the uploads for good; a yes, and nothing else, starts one. */
  lemma {:induction false} NoMeansNo(s: Session, events: seq<Event>)
    requires s.stopped && !Syncing(s.phase) && !s.phase.Settling?
    ensures Run(s, events).stopped && !Syncing(Run(s, events).phase)
    decreases |events|
  {
    if events != [] {
      NoMeansNo(if Enabled(s, events[0]) then Next(s, events[0]) else s, events[1..]);
    }
  }

  lemma AnswerDecides(s: Session, overwrite: Option<bool>, events: seq<Event>)
    requires s.phase.Asking? && (overwrite.None? ==> s.closed)
    ensures var t := Next(s, Answer(overwrite));
      && (t.phase.Uploading? <==> overwrite == Some(true))
      && (overwrite == Some(false) ==> t.stopped && !Syncing(Run(t, events).phase))
      && (overwrite == None ==> t.conflicted && t.phase == Finished(Kept))
  {
    if overwrite == Some(false) {
      NoMeansNo(Next(s, Answer(overwrite)), events);
    }
  }

  // ---- Failures ------------------------------------------------------------------------------

  lemma FailureIsTold(s: Session, e: Event)
    requires Inv(s) && Enabled(s, e)
    requires e == StatReply(StatFailed) || (e.UploadReply? && e.result.UploadFailed? && !e.result.isFolder)
    requires !s.closed && !s.phase.stopping
    ensures var t := Next(s, e);
      && t.pending && t.retrying && t.phase.Polling? && LastOutcome(t.told) == Some(TellFailed)
      && !t.stopped && !t.closed && t.copy == s.copy && t.attempted == s.attempted
  {
    NextKeeps(s, e);
    assert Told(Next(s, e));
    hide Told;
    hide ToldOnce;
    hide LastOutcome;
    hide Tracked;
    hide NothingLost;
    hide PromptKnows;
    hide Session.IsKept;
  }

  lemma PendingIsRetried(t: Session)
    requires t.pending && t.retrying && t.phase.Polling? && !t.stopped && !t.closed && t.copy.Some?
    ensures t.NewSave().None? ==> Next(t, Tick(false)).phase.Polling?
    ensures if t.NewSave().None? then Next(t, Tick(true)).phase.Checking? && Next(t, CameBack).phase.Checking?
            else Next(t, Tick(true)).phase.Settling? && Next(Next(t, Tick(true)), Settled).phase.Checking?
  {
  }

  /** A check or an upload that failed is told and pending, and tried again when the timer
      or the connection says so. An upload is not before that, unless there is a new save. */
  lemma FailureIsRetried(s: Session, e: Event)
    requires Inv(s) && Enabled(s, e)
    requires e == StatReply(StatFailed) || (e.UploadReply? && e.result.UploadFailed? && !e.result.isFolder)
    requires !s.closed && !s.phase.stopping && s.copy.Some?
    ensures var t := Next(s, e);
      && t.pending && t.phase.Polling? && LastOutcome(t.told) == Some(TellFailed)
      && (e.UploadReply? && s.LocalStamp() == Some(s.phase.now) ==> Next(t, Tick(false)).phase.Polling?)
      && if t.NewSave().None? then Next(t, Tick(true)).phase.Checking? && Next(t, CameBack).phase.Checking?
         else Next(t, Tick(true)).phase.Settling? && Next(Next(t, Tick(true)), Settled).phase.Checking?
  {
    FailureIsTold(s, e);
    PendingIsRetried(Next(s, e));
    hide Next;
    hide Told;
    hide Tracked;
    hide NothingLost;
    hide PromptKnows;
  }

  /** The editor is given time: a copy saved again while it was waited for is left for the
      next turn, unless something else is due. */
  lemma StillWriting(s: Session, bytes: seq<byte>)
    requires Inv(s) && s.phase.Settling? && !s.phase.due && !s.phase.stopping && !s.closed
    ensures var t := Run(s, [Save(bytes), Settled]);
      t.phase.Polling? && t.told == s.told && t.NewSave() == Some(s.clock)
  {
    RunOne(s, Save(bytes), [Settled]);
    RunOne(Next(s, Save(bytes)), Settled, []);
    assert [Settled] + [] == [Settled] && [Save(bytes)] + [Settled] == [Save(bytes), Settled];
    hide Session.Decide;
  }
}
