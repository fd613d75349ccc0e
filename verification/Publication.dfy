/** Exclusive publication of a file: the helper's steps (src/artifacts/secure-fs-helper.ts), the parent's
    control protocol and read-back (src/artifacts/secure-io.ts), a power failure at any point, and other
    publishers of the same name. A run is any sequence of enabled actions. */
module Publication {
  import opened Wrappers

  /** What the final name refers to: the inode this helper wrote, or somebody else's finished file. */
  datatype File = Ours | Theirs(bytes: Bytes)

  datatype Helper =
    | Started      // has the contents, no file yet
    | Writing      // the staging file is open
    | Written
    | Synced       // contents on disk
    | Waiting      // "prepared" sent
    | Granted      // "commit" received
    | FinalLinked
    | Durable      // directory on disk
    | Acknowledged // "committed" sent
    | Unstaged     // staging link removed
    | RollingBack
    | Exited

  datatype Line = PreparedLine | CommittedLine

  datatype Outcome = Returned | AbortError | OtherError

  datatype Parent = Serving | Confirming | ReadingBack(uncertain: bool) | Finished(outcome: Outcome)

  /** The directory and our inode; `…OnDisk` is what a power failure would leave of each. */
  datatype Disk = Disk(contents: Bytes, contentsOnDisk: bool, staging: bool, stagingOnDisk: bool,
                       final: Option<File>, finalOnDisk: Option<File>)

  /** The parent's flags, and the lines it has not read yet. */
  datatype Control = Control(lines: seq<Line>, granted: bool, acknowledged: bool, controlError: bool,
                             aborted: bool, killed: bool)

  datatype State = State(helper: Helper, disk: Disk, control: Control, parent: Parent)

  function Initial(existing: Option<Bytes>): State {
    var final := if existing.Some? then Some(Theirs(existing.value)) else None;
    State(Started, Disk([], false, false, false, final, final), Control([], false, false, false, false, false), Serving)
  }

  datatype HelperAction =
    | OpenStaging | Write(n: nat) | FinishWriting | SyncContents | SayPrepared | ReceiveCommit
    | LinkFinal | SyncDirectory | SayCommitted | Unstage | Leave | Fail | RollBack | Die

  datatype ParentAction = HearLine(sendFails: bool) | Abort | Close | Confirm(ok: bool) | ReadBack(readable: bool)

  datatype WorldAction = OtherPublishes(bytes: Bytes) | FlushStaging | FlushFinal

  datatype Action = HelperDoes(h: HelperAction) | ParentDoes(p: ParentAction) | WorldDoes(w: WorldAction)

  predicate BeforeLink(h: Helper) {
    h.Started? || h.Writing? || h.Written? || h.Synced? || h.Waiting? || h.Granted?
  }

  predicate HelperMay(s: State, h: HelperAction, data: Bytes) {
    match h
    case OpenStaging => s.helper.Started?
    case Write(n) => s.helper.Writing? && |s.disk.contents| < n <= |data|
    case FinishWriting => s.helper.Writing? && s.disk.contents == data
    case SyncContents => s.helper.Written?
    case SayPrepared => s.helper.Synced?
    case ReceiveCommit => s.helper.Waiting? && s.control.granted
    case LinkFinal => s.helper.Granted?
    case SyncDirectory => s.helper.FinalLinked?
    case SayCommitted => s.helper.Durable?
    case Unstage => s.helper.Acknowledged?
    case Leave => s.helper.Acknowledged? || s.helper.Unstaged? || s.helper.RollingBack?
    case Fail => BeforeLink(s.helper) || s.helper.FinalLinked? || s.helper.Durable?
    case RollBack => s.helper.RollingBack?
    case Die => s.control.killed && !s.helper.Exited?
  }

  function HelperStep(s: State, h: HelperAction, data: Bytes): State
    requires HelperMay(s, h, data)
  {
    match h
    case OpenStaging => s.(helper := Writing, disk := s.disk.(staging := true))
    case Write(n) => s.(disk := s.disk.(contents := data[..n]))
    case FinishWriting => s.(helper := Written)
    case SyncContents => s.(helper := Synced, disk := s.disk.(contentsOnDisk := true))
    case SayPrepared => s.(helper := Waiting, control := s.control.(lines := s.control.lines + [PreparedLine]))
    case ReceiveCommit => s.(helper := Granted)
    case LinkFinal =>
      if s.disk.final.Some? then s.(helper := RollingBack)
      else s.(helper := FinalLinked, disk := s.disk.(final := Some(Ours)))
    case SyncDirectory => s.(helper := Durable, disk := Flushed(s.disk))
    case SayCommitted => s.(helper := Acknowledged, control := s.control.(lines := s.control.lines + [CommittedLine]))
    case Unstage => s.(helper := Unstaged, disk := s.disk.(staging := false))
    case Leave => s.(helper := Exited)
    case Fail => s.(helper := if s.helper.Waiting? || s.helper.Granted? then RollingBack else Exited)
    case RollBack => s.(helper := Exited, disk := s.disk.(staging := false))
    case Die => s.(helper := Exited)
  }

  function Flushed(d: Disk): Disk {
    d.(stagingOnDisk := d.staging, finalOnDisk := d.final)
  }

  predicate ParentMay(s: State, p: ParentAction) {
    match p
    case HearLine(_) => s.parent.Serving? && s.control.lines != []
    case Abort => !s.control.aborted
    case Close => s.parent.Serving? && s.helper.Exited? && s.control.lines == []
    case Confirm(_) => s.parent.Confirming?
    case ReadBack(_) => s.parent.ReadingBack?
  }

  /** The message loop: "prepared" is answered with "commit" unless the signal is up. */
  function Hear(c: Control, sendFails: bool): Control
    requires c.lines != []
  {
    var rest := c.(lines := c.lines[1..]);
    match c.lines[0]
    case PreparedLine =>
      if c.granted then rest.(controlError := true, killed := true)
      else if c.aborted then rest.(killed := c.killed || !c.acknowledged)
      else rest.(granted := true, controlError := c.controlError || sendFails, killed := c.killed || sendFails)
    case CommittedLine =>
      if !c.granted || c.acknowledged then rest.(controlError := true, killed := true)
      else rest.(acknowledged := true)
  }

  /** The end of runHelper. */
  function AfterClose(c: Control): Parent {
    if c.acknowledged && !c.controlError then ReadingBack(false)
    else if c.aborted && !c.acknowledged then
      if c.granted then Confirming else Finished(AbortError)
    else Finished(OtherError)
  }

  function BytesOf(d: Disk, f: File): Bytes {
    match f case Ours => d.contents case Theirs(bytes) => bytes
  }

  /** The end of writeExclusiveRegularFile. */
  function AfterReadBack(s: State, uncertain: bool, readable: bool, data: Bytes): Outcome {
    if s.disk.final.None? then (if uncertain && s.control.aborted then AbortError else OtherError)
    else if readable && BytesOf(s.disk, s.disk.final.value) == data then Returned
    else OtherError
  }

  function ParentStep(s: State, p: ParentAction, data: Bytes): State
    requires ParentMay(s, p)
  {
    match p
    case HearLine(sendFails) => s.(control := Hear(s.control, sendFails))
    case Abort =>
      s.(control := s.control.(aborted := true,
                               killed := s.control.killed || (s.parent.Serving? && !s.control.acknowledged)))
    case Close => s.(parent := AfterClose(s.control))
    case Confirm(ok) =>
      if ok then s.(parent := ReadingBack(true), disk := Flushed(s.disk)) else s.(parent := Finished(OtherError))
    case ReadBack(readable) => s.(parent := Finished(AfterReadBack(s, s.parent.uncertain, readable, data)))
  }

  function WorldStep(s: State, w: WorldAction): State {
    match w
    case OtherPublishes(bytes) =>
      if s.disk.final.Some? then s else s.(disk := s.disk.(final := Some(Theirs(bytes))))
    case FlushStaging => s.(disk := s.disk.(stagingOnDisk := s.disk.staging))
    case FlushFinal => s.(disk := s.disk.(finalOnDisk := s.disk.final))
  }

  predicate Enabled(s: State, a: Action, data: Bytes) {
    match a
    case HelperDoes(h) => HelperMay(s, h, data)
    case ParentDoes(p) => ParentMay(s, p)
    case WorldDoes(_) => true
  }

  function Apply(s: State, a: Action, data: Bytes): State
    requires Enabled(s, a, data)
  {
    match a
    case HelperDoes(h) => HelperStep(s, h, data)
    case ParentDoes(p) => ParentStep(s, p, data)
    case WorldDoes(w) => WorldStep(s, w)
  }

  function Run(existing: Option<Bytes>, data: Bytes, actions: seq<Action>): Option<State> {
    if actions == [] then Some(Initial(existing))
    else
      var before := Run(existing, data, actions[..|actions| - 1]);
      var a := actions[|actions| - 1];
      if before.Some? && Enabled(before.value, a, data) then Some(Apply(before.value, a, data)) else None
  }

  // ----- Invariants -----

  /** The helper is past its link, and has not exited. */
  predicate PastLink(h: Helper) {
    h.FinalLinked? || h.Durable? || h.Acknowledged? || h.Unstaged?
  }

  predicate PastSync(h: Helper) {
    h.Synced? || h.Waiting? || h.Granted? || PastLink(h)
  }

  /** The final name never leads to unfinished contents, in memory or on disk. */
  predicate ContentsFirst(h: Helper, d: Disk, data: Bytes) {
    && d.contents <= data
    && (d.contentsOnDisk || h.Written? ==> d.contents == data)
    && (d.final == Some(Ours) || d.finalOnDisk == Some(Ours) || PastSync(h) ==> d.contentsOnDisk)
    && (h.Started? || h.Writing? || h.Written? ==> !d.contentsOnDisk)
  }

  /** Nothing but the helper's link makes the name ours, and it needs the parent's commit. */
  predicate LinkedByGrant(h: Helper, d: Disk, granted: bool) {
    && (d.final == Some(Ours) ==> granted && (PastLink(h) || h.Exited?))
    && (PastLink(h) ==> d.final == Some(Ours))
    && (h.Granted? ==> granted)
    && (d.finalOnDisk.Some? ==> d.final == d.finalOnDisk)
  }

  /** The parent hears "committed" only of a name that is on disk. */
  predicate AcknowledgedIsDurable(h: Helper, d: Disk, c: Control) {
    CommittedLine in c.lines || c.acknowledged || h.Durable? || h.Acknowledged? || h.Unstaged? ==>
      d.finalOnDisk == Some(Ours)
  }

  predicate ParentRight(s: State, data: Bytes) {
    && (!s.parent.Serving? ==> s.helper.Exited?)
    && (s.parent == ReadingBack(false) ==> s.control.acknowledged)
    && (s.parent == ReadingBack(true) && s.disk.final == Some(Ours) ==> s.disk.finalOnDisk == Some(Ours))
    && (s.parent == Finished(AbortError) ==> s.disk.final != Some(Ours))
    && (s.parent == Finished(Returned) ==>
          && s.disk.final.Some? && BytesOf(s.disk, s.disk.final.value) == data
          && (s.disk.final == Some(Ours) ==> s.disk.finalOnDisk == Some(Ours)))
  }

  predicate Safe(s: State, data: Bytes) {
    && ContentsFirst(s.helper, s.disk, data)
    && LinkedByGrant(s.helper, s.disk, s.control.granted)
    && AcknowledgedIsDurable(s.helper, s.disk, s.control)
    && ParentRight(s, data)
  }

  lemma HelperIsSafe(s: State, h: HelperAction, data: Bytes)
    requires Safe(s, data) && HelperMay(s, h, data)
    ensures Safe(HelperStep(s, h, data), data)
  {
  }

  lemma ParentIsSafe(s: State, p: ParentAction, data: Bytes)
    requires Safe(s, data) && ParentMay(s, p)
    ensures Safe(ParentStep(s, p, data), data)
  {
  }

  lemma WorldIsSafe(s: State, w: WorldAction, data: Bytes)
    requires Safe(s, data)
    ensures Safe(WorldStep(s, w), data)
  {
  }

  lemma {:induction false} RunIsSafe(existing: Option<Bytes>, data: Bytes, actions: seq<Action>)
    requires Run(existing, data, actions).Some?
    ensures Safe(Run(existing, data, actions).value, data)
  {
    if actions != [] {
      var before, a := actions[..|actions| - 1], actions[|actions| - 1];
      RunIsSafe(existing, data, before);
      var s := Run(existing, data, before).value;
      match a {
        case HelperDoes(h) => HelperIsSafe(s, h, data);
        case ParentDoes(p) => ParentIsSafe(s, p, data);
        case WorldDoes(w) => WorldIsSafe(s, w, data);
      }
    }
  }

  // ----- What a reader of the final name gets -----

  /** The name's bytes now; `None` is not-found. */
  function ReadNow(s: State): Option<Bytes> {
    if s.disk.final.None? then None else Some(BytesOf(s.disk, s.disk.final.value))
  }

  /** The name's bytes after a power failure now. Contents that were never synced come back as anything. */
  function ReadAfterFailure(s: State, garbage: Bytes): Option<Bytes> {
    match s.disk.finalOnDisk
    case None => None
    case Some(Theirs(bytes)) => Some(bytes)
    case Some(Ours) => Some(if s.disk.contentsOnDisk then s.disk.contents else garbage)
  }

  /** At every moment, and after a power failure at every moment, the name is absent, or somebody
      else's, or has exactly the bytes that were to be published. */
  lemma NeverPartial(existing: Option<Bytes>, data: Bytes, actions: seq<Action>, garbage: Bytes)
    requires Run(existing, data, actions).Some?
    ensures var s := Run(existing, data, actions).value;
            && (s.disk.final == Some(Ours) ==> ReadNow(s) == Some(data))
            && (s.disk.finalOnDisk == Some(Ours) ==> ReadAfterFailure(s, garbage) == Some(data))
            && (ReadAfterFailure(s, garbage).Some? ==> ReadAfterFailure(s, garbage) == ReadNow(s))
  {
    RunIsSafe(existing, data, actions);
  }

  /** A normal return means published: the bytes are there, and if this helper put them there they
      outlast a power failure. */
  lemma ReturnedIsPublished(existing: Option<Bytes>, data: Bytes, actions: seq<Action>, garbage: Bytes)
    requires Run(existing, data, actions).Some?
    requires Run(existing, data, actions).value.parent == Finished(Returned)
    ensures var s := Run(existing, data, actions).value;
            && ReadNow(s) == Some(data)
            && (s.disk.final == Some(Ours) ==> ReadAfterFailure(s, garbage) == Some(data))
  {
    RunIsSafe(existing, data, actions);
  }

  /** An abort error means this call has published nothing, and never will. */
  lemma AbortedIsNotPublished(existing: Option<Bytes>, data: Bytes, actions: seq<Action>, more: seq<Action>)
    requires Run(existing, data, actions).Some? && Run(existing, data, actions + more).Some?
    requires Run(existing, data, actions).value.parent == Finished(AbortError)
    ensures Run(existing, data, actions + more).value.disk.final != Some(Ours)
    ensures Run(existing, data, actions + more).value.disk.finalOnDisk != Some(Ours)
  {
    Later(existing, data, actions, more);
    RunIsSafe(existing, data, actions + more);
  }

  lemma StepStays(s: State, a: Action, data: Bytes)
    requires Safe(s, data) && Enabled(s, a, data)
    ensures var u := Apply(s, a, data);
            && (s.disk.final.Some? ==> u.disk.final == s.disk.final)
            && (s.disk.finalOnDisk.Some? ==> u.disk.finalOnDisk == s.disk.finalOnDisk)
            && (s.parent.Finished? ==> u.parent == s.parent)
  {
  }

  /** A name once taken keeps its file, and a call once finished stays finished. */
  lemma {:induction false} Later(existing: Option<Bytes>, data: Bytes, actions: seq<Action>, more: seq<Action>)
    requires Run(existing, data, actions + more).Some?
    ensures Run(existing, data, actions).Some?
    ensures var s, u := Run(existing, data, actions).value, Run(existing, data, actions + more).value;
            && (s.disk.final.Some? ==> u.disk.final == s.disk.final)
            && (s.disk.finalOnDisk.Some? ==> u.disk.finalOnDisk == s.disk.finalOnDisk)
            && (s.parent.Finished? ==> u.parent == s.parent)
    decreases |more|
  {
    if more == [] {
      assert actions + more == actions;
      if actions != [] { RunIsSafe(existing, data, actions); }
    } else {
      var n := |more| - 1;
      assert (actions + more)[..|actions + more| - 1] == actions + more[..n];
      Later(existing, data, actions, more[..n]);
      RunIsSafe(existing, data, actions + more[..n]);
      StepStays(Run(existing, data, actions + more[..n]).value, more[n], data);
    }
  }

  /** Publication is exclusive: a file that was there before is never replaced. */
  lemma NeverReplaces(before: Bytes, data: Bytes, actions: seq<Action>)
    requires Run(Some(before), data, actions).Some?
    ensures ReadNow(Run(Some(before), data, actions).value) == Some(before)
    ensures Run(Some(before), data, actions).value.parent == Finished(Returned) ==> before == data
  {
    assert [] + actions == actions;
    assert Run(Some(before), data, []) == Some(Initial(Some(before)));
    Later(Some(before), data, [], actions);
    RunIsSafe(Some(before), data, actions);
  }

  // ----- An undisturbed call -----

  lemma RunSnoc(existing: Option<Bytes>, data: Bytes, actions: seq<Action>, a: Action)
    requires Run(existing, data, actions).Some? && Enabled(Run(existing, data, actions).value, a, data)
    ensures Run(existing, data, actions + [a]) == Some(Apply(Run(existing, data, actions).value, a, data))
  {
    assert (actions + [a])[..|actions|] == actions;
  }

  /** How much has been written after each piece. */
  predicate Increasing(pieces: seq<nat>, size: nat) {
    && (forall i :: 0 <= i < |pieces| ==> 0 < pieces[i] <= size)
    && (forall i, j :: 0 <= i < j < |pieces| ==> pieces[i] < pieces[j])
  }

  /** The helper writes the contents down, in any pieces. */
  lemma {:induction false} WritesDown(existing: Option<Bytes>, data: Bytes, pieces: seq<nat>) returns (actions: seq<Action>)
    requires Increasing(pieces, |data|)
    ensures Run(existing, data, actions)
         == Some(Initial(existing).(helper := Writing, disk := Initial(existing).disk.(
              staging := true, contents := if pieces == [] then [] else data[..pieces[|pieces| - 1]])))
  {
    if pieces == [] {
      assert Run(existing, data, []) == Some(Initial(existing));
      RunSnoc(existing, data, [], HelperDoes(OpenStaging));
      actions := [] + [HelperDoes(OpenStaging)];
    } else {
      var n := |pieces| - 1;
      var before := WritesDown(existing, data, pieces[..n]);
      RunSnoc(existing, data, before, HelperDoes(Write(pieces[n])));
      actions := before + [HelperDoes(Write(pieces[n]))];
    }
  }

  /** It syncs them, and asks for the parent's commit. */
  lemma Prepares(existing: Option<Bytes>, data: Bytes, pieces: seq<nat>) returns (actions: seq<Action>)
    requires Increasing(pieces, |data|)
    requires (if pieces == [] then 0 else pieces[|pieces| - 1]) == |data|
    ensures Run(existing, data, actions)
         == Some(Initial(existing).(helper := Granted, control := Initial(existing).control.(granted := true),
              disk := Initial(existing).disk.(staging := true, contents := data, contentsOnDisk := true)))
  {
    actions := WritesDown(existing, data, pieces);
    assert data[..|data|] == data;
    RunSnoc(existing, data, actions, HelperDoes(FinishWriting));
    actions := actions + [HelperDoes(FinishWriting)];
    RunSnoc(existing, data, actions, HelperDoes(SyncContents));
    actions := actions + [HelperDoes(SyncContents)];
    RunSnoc(existing, data, actions, HelperDoes(SayPrepared));
    actions := actions + [HelperDoes(SayPrepared)];
    RunSnoc(existing, data, actions, ParentDoes(HearLine(false)));
    actions := actions + [ParentDoes(HearLine(false))];
    assert Run(existing, data, actions).value.control.lines == [];
    RunSnoc(existing, data, actions, HelperDoes(ReceiveCommit));
    actions := actions + [HelperDoes(ReceiveCommit)];
  }

  /** It links the name, makes it durable, and says so. */
  lemma Links(data: Bytes, pieces: seq<nat>) returns (actions: seq<Action>)
    requires Increasing(pieces, |data|)
    requires (if pieces == [] then 0 else pieces[|pieces| - 1]) == |data|
    ensures Run(None, data, actions).Some?
    ensures var s := Run(None, data, actions).value;
            && s.helper.Acknowledged? && s.parent.Serving?
            && s.control == Control([], true, true, false, false, false)
            && s.disk == Disk(data, true, true, true, Some(Ours), Some(Ours))
  {
    actions := Prepares(None, data, pieces);
    RunSnoc(None, data, actions, HelperDoes(LinkFinal));
    actions := actions + [HelperDoes(LinkFinal)];
    RunSnoc(None, data, actions, HelperDoes(SyncDirectory));
    actions := actions + [HelperDoes(SyncDirectory)];
    RunSnoc(None, data, actions, HelperDoes(SayCommitted));
    actions := actions + [HelperDoes(SayCommitted)];
    RunSnoc(None, data, actions, ParentDoes(HearLine(false)));
    actions := actions + [ParentDoes(HearLine(false))];
    assert Run(None, data, actions).value.control.lines == [];
  }

  /** An undisturbed call publishes the contents, in whatever pieces they are written, takes its staging link
      away, and returns. */
  lemma PublishesUndisturbed(data: Bytes, pieces: seq<nat>) returns (actions: seq<Action>)
    requires Increasing(pieces, |data|)
    requires (if pieces == [] then 0 else pieces[|pieces| - 1]) == |data|
    ensures Run(None, data, actions).Some?
    ensures var s := Run(None, data, actions).value;
            && s.parent == Finished(Returned) && ReadNow(s) == Some(data) && !s.disk.staging
            && s.disk.finalOnDisk == Some(Ours)
  {
    actions := Links(data, pieces);
    RunSnoc(None, data, actions, HelperDoes(Unstage));
    actions := actions + [HelperDoes(Unstage)];
    RunSnoc(None, data, actions, HelperDoes(Leave));
    actions := actions + [HelperDoes(Leave)];
    RunSnoc(None, data, actions, ParentDoes(Close));
    actions := actions + [ParentDoes(Close)];
    RunSnoc(None, data, actions, ParentDoes(ReadBack(true)));
    actions := actions + [ParentDoes(ReadBack(true))];
  }
}
