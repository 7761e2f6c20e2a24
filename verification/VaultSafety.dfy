/** What every run of opens, creates, closes and saves keeps. */
module VaultSafety {
  import opened Wrappers
  import opened Text
  import opened VaultConfigs
  import opened VaultProtocol

  // ----- A directory is absent or complete unless a create is at work on it -----

  function Holder(s: State, d: Dir): Place {
    if d in s.dirGates then s.Pc(s.dirGates[d]) else Idle
  }

  ghost predicate Stage(s: State, d: Dir) {
    && (d in s.refused ==> s.won[d] == 1)
    && match Holder(s, d)
       case CreateSaves(_, _) => d in s.disk && s.disk[d] == VaultDir(None, false, false) && s.won[d] == 0
       case CreateWaitsUnlock(_) => d in s.disk && s.disk[d].config.Some? && s.won[d] == 0
       case CreateDerives(_) => d in s.disk && s.disk[d].config.Some? && s.won[d] == 0
       case CreatePersists(_) => d in s.disk && s.disk[d].config.Some? && s.disk[d].seeded && s.won[d] == 0
       case CreateRollsBack(_) => d in s.disk && s.won[d] == 0
       case _ => Settled(s, d)
  }

  ghost predicate Settled(s: State, d: Dir) {
    if d in s.disk then s.won[d] == 1 && Complete(s.disk[d]) else s.won[d] == 0
  }

  lemma CreateKeepsOwnStage(s: State, t: Tid, ok: bool)
    requires DirGatesHeld(s) && CanAdvance(s, t) && !Opening(s.Pc(t)) && !Closing(s.Pc(t))
    requires Stage(s, s.Pc(t).dir)
    ensures Stage(AdvanceCreate(s, t, ok), s.Pc(t).dir)
  {
    hide Written;
  }

  /** Nothing about a directory changes when a create of another one, an open or a close moves. */
  ghost predicate SameAt(s: State, next: State, d: Dir) {
    && (d in next.disk <==> d in s.disk) && (d in s.disk ==> next.disk[d] == s.disk[d])
    && next.won[d] == s.won[d] && (d in next.refused <==> d in s.refused)
  }

  lemma CreateLeavesOthers(s: State, t: Tid, ok: bool, d: Dir)
    requires CanAdvance(s, t) && !Opening(s.Pc(t)) && !Closing(s.Pc(t)) && d != s.Pc(t).dir
    ensures SameAt(s, AdvanceCreate(s, t, ok), d)
  {
    hide Written;
  }

  lemma OpenLeavesDisk(s: State, t: Tid, ok: bool)
    requires CanAdvance(s, t) && Opening(s.Pc(t))
    ensures var next := AdvanceOpen(s, t, ok); next.disk == s.disk && next.won == s.won && next.refused == s.refused
  {
    hide Load;
  }

  lemma CloseLeavesDisk(s: State, t: Tid, ok: bool)
    requires CanAdvance(s, t) && Closing(s.Pc(t))
    ensures var next := AdvanceClose(s, t, ok); next.disk == s.disk && next.won == s.won && next.refused == s.refused
  {
  }

  lemma SameHolder(s: State, t: Tid, next: State, d: Dir)
    requires DirGatesHeld(s) && !s.Pc(t).Idle? && OwnEffect(s, t, next)
    requires d == s.Pc(t).dir ==> !HoldsDir(s.Pc(t)) && !HoldsDir(next.Pc(t))
    ensures Holder(next, d) == Holder(s, d)
  {
  }

  lemma MoveKeepsStage(s: State, t: Tid, ok: bool, d: Dir)
    requires Locked(s) && CanAdvance(s, t) && Stage(s, d)
    ensures Stage(Advance(s, t, ok), d)
  {
    hide AdvanceOpen;
    hide AdvanceClose;
    hide AdvanceCreate;
    hide DirGatesHeld;
    hide UnlockGateHeld;
    hide OwnEffect;
    MoveEffect(s, t, ok);
    var next := Advance(s, t, ok);
    if Opening(s.Pc(t)) {
      OpenLeavesDisk(s, t, ok);
      OpenNeverHoldsDir(s, t, ok);
      SameHolder(s, t, next, d);
    } else if Closing(s.Pc(t)) {
      CloseLeavesDisk(s, t, ok);
      CloseNeverHoldsDir(s, t, ok);
      SameHolder(s, t, next, d);
    } else if d == s.Pc(t).dir {
      CreateKeepsOwnStage(s, t, ok);
    } else {
      CreateLeavesOthers(s, t, ok, d);
      SameHolder(s, t, next, d);
    }
  }

  lemma OpenNeverHoldsDir(s: State, t: Tid, ok: bool)
    requires CanAdvance(s, t) && Opening(s.Pc(t))
    ensures !HoldsDir(s.Pc(t)) && !HoldsDir(AdvanceOpen(s, t, ok).Pc(t))
  {
    hide Load;
  }

  lemma CloseNeverHoldsDir(s: State, t: Tid, ok: bool)
    requires CanAdvance(s, t) && Closing(s.Pc(t))
    ensures !HoldsDir(s.Pc(t)) && !HoldsDir(AdvanceClose(s, t, ok).Pc(t))
  {
  }

  function WithConfig(s: State, dir: Dir, c: Config): State
    requires dir in s.disk
  {
    s.(disk := s.disk[dir := s.disk[dir].(config := Some(c))])
  }

  /** A checked save replaces the configuration of one vault that had one, or does nothing. */
  lemma SaveEffect(s: State, e: Event)
    requires e.Save?
    ensures Apply(s, e) == s
            || (e.dir in s.disk && s.disk[e.dir].config.Some?
                && CheckedSave(s.File(e.dir), e.dir, e.after, BlocksQuiet(s, e.dir), true).Ok?
                && Apply(s, e) == WithConfig(s, e.dir, Written(e.after)))
  {
  }

  lemma ConfigKeepsStage(s: State, dir: Dir, c: Config, d: Dir)
    requires dir in s.disk && s.disk[dir].config.Some? && Stage(s, d)
    ensures Stage(WithConfig(s, dir, c), d)
  {
    assert Holder(WithConfig(s, dir, c), d) == Holder(s, d);
    hide Holder;
  }

  lemma SaveKeepsStage(s: State, e: Event, d: Dir)
    requires Stage(s, d) && e.Save?
    ensures Stage(Apply(s, e), d)
  {
    hide Apply;
    hide CheckedSave;
    hide Stage;
    hide WithConfig;
    SaveEffect(s, e);
    if e.dir in s.disk && s.disk[e.dir].config.Some? {
      ConfigKeepsStage(s, e.dir, Written(e.after), d);
    }
  }

  lemma BeginKeepsStage(s: State, e: Event, d: Dir)
    requires DirGatesHeld(s) && Stage(s, d) && !e.Move? && !e.Save?
    ensures Stage(Apply(s, e), d)
  {
    BeginKeepsHolder(s, e, d);
    BeginEffect(s, e);
    hide Apply;
    hide Holder;
    hide DirGatesHeld;
  }

  lemma ApplyKeepsStage(s: State, e: Event, d: Dir)
    requires Locked(s) && Stage(s, d)
    ensures Stage(Apply(s, e), d)
  {
    hide Stage;
    hide DirGatesHeld;
    hide UnlockGateHeld;
    hide CanAdvance;
    hide Advance;
    if e.Save? {
      SaveKeepsStage(s, e, d);
    } else if !e.Move? {
      BeginKeepsStage(s, e, d);
    } else if CanAdvance(s, e.t) {
      MoveKeepsStage(s, e.t, e.ok, d);
    }
  }

  lemma BeginKeepsHolder(s: State, e: Event, d: Dir)
    requires DirGatesHeld(s) && !e.Move?
    ensures Holder(Apply(s, e), d) == Holder(s, d)
  {
    BeginEffect(s, e);
    hide Apply;
  }

  lemma {:induction false} RunKeepsStages(start: State, events: seq<Event>, d: Dir)
    requires AtRest(start)
    ensures Stage(Run(start, events), d)
  {
    if events != [] {
      RunKeepsStages(start, events[..|events| - 1], d);
      RunKeepsLocks(start, events[..|events| - 1]);
      ApplyKeepsStage(Run(start, events[..|events| - 1]), events[|events| - 1], d);
    }
  }

  /** Of the creates of one directory at most one succeeds; one that found the vault already there
      lost to a create that succeeded; and whenever no create is inside the directory's gate the
      vault is absent, or complete and the work of that one create. */
  lemma OneCreateWins(start: State, events: seq<Event>, d: Dir)
    requires AtRest(start)
    ensures var s := Run(start, events);
            && s.won[d] <= 1
            && (d in s.refused ==> s.won[d] == 1)
            && (d !in s.dirGates ==> Settled(s, d))
  {
    RunKeepsStages(start, events, d);
  }

  // ----- Closing marks -----

  ghost predicate ClosesMarked(s: State) {
    forall t :: Marked(s.Pc(t)) ==> s.Pc(t).dir in s.closing
  }

  /** A close ends, clearing its mark, while another close of the vault still relies on it. */
  ghost predicate ClearsAnothersMark(s: State, e: Event) {
    e.Move? && s.Pc(e.t).CloseLeaves? && exists u :: u != e.t && Marked(s.Pc(u)) && s.Pc(u).dir == s.Pc(e.t).dir
  }

  lemma MoveMarksExactly(s: State, t: Tid, ok: bool)
    requires ClosesMarked(s) && CanAdvance(s, t)
    ensures ClosesMarked(Advance(s, t, ok)) <==> !ClearsAnothersMark(s, Move(t, ok))
  {
    MoveEffect(s, t, ok);
    LeavesAfterMark(s, t, ok);
    hide Advance;
    hide CanAdvance;
    hide OwnUnlock;
    hide OwnDir;
    var next := Advance(s, t, ok);
    assert forall u :: u != t ==> next.Pc(u) == s.Pc(u);
    if ClearsAnothersMark(s, Move(t, ok)) {
      var u :| u != t && Marked(s.Pc(u)) && s.Pc(u).dir == s.Pc(t).dir;
      assert Marked(next.Pc(u)) && next.Pc(u).dir !in next.closing;
    }
  }

  lemma LeavesAfterMark(s: State, t: Tid, ok: bool)
    requires CanAdvance(s, t)
    ensures Marked(s.Pc(t)) && !Marked(Advance(s, t, ok).Pc(t)) <==> s.Pc(t).CloseLeaves?
  {
    MoveEffect(s, t, ok);
    if Closing(s.Pc(t)) {
      hide AdvanceOpen;
      hide AdvanceCreate;
    } else {
      hide Advance;
    }
  }

  lemma BeginKeepsMarks(s: State, e: Event)
    requires ClosesMarked(s) && !e.Move?
    ensures ClosesMarked(Apply(s, e))
  {
    BeginEffect(s, e);
    hide Apply;
    var next := Apply(s, e);
    assert forall u :: next.Pc(u) == s.Pc(u) || (!e.Save? && u == e.t && !Marked(next.Pc(u)));
  }

  /** Each event keeps every close in progress marked exactly unless it clears the mark of another. */
  lemma MarksExactly(s: State, e: Event)
    requires ClosesMarked(s)
    ensures ClosesMarked(Apply(s, e)) <==> !ClearsAnothersMark(s, e)
  {
    if !e.Move? {
      BeginKeepsMarks(s, e);
    } else if CanAdvance(s, e.t) {
      MoveMarksExactly(s, e.t, e.ok);
    }
    hide ClosesMarked;
    hide Advance;
  }

  /** No event of the run clears the mark of another close. */
  ghost predicate MarksStand(start: State, events: seq<Event>) {
    forall k :: 0 <= k < |events| ==> !ClearsAnothersMark(Run(start, events[..k]), events[k])
  }

  lemma PrefixStands(start: State, events: seq<Event>)
    requires MarksStand(start, events) && events != []
    ensures MarksStand(start, events[..|events| - 1])
    ensures !ClearsAnothersMark(Run(start, events[..|events| - 1]), events[|events| - 1])
  {
    hide ClearsAnothersMark;
    var front := events[..|events| - 1];
    forall k | 0 <= k < |front| ensures !ClearsAnothersMark(Run(start, front[..k]), front[k]) {
      assert front[..k] == events[..k];
      assert !ClearsAnothersMark(Run(start, events[..k]), events[k]);
    }
  }

  lemma {:induction false} RunKeepsMarks(start: State, events: seq<Event>)
    requires AtRest(start) && MarksStand(start, events)
    ensures ClosesMarked(Run(start, events))
  {
    if events != [] {
      PrefixStands(start, events);
      RunKeepsMarks(start, events[..|events| - 1]);
      MarksExactly(Run(start, events[..|events| - 1]), events[|events| - 1]);
    }
  }

  /** In a run every close in progress is marked in every state exactly when no close ends while
      another one of its vault is still at work. */
  lemma MarksStandExactly(start: State, events: seq<Event>)
    requires AtRest(start)
    ensures MarksStand(start, events) <==> forall k :: 0 <= k <= |events| ==> ClosesMarked(Run(start, events[..k]))
  {
    hide ClosesMarked;
    hide ClearsAnothersMark;
    if MarksStand(start, events) {
      forall k | 0 <= k <= |events| ensures ClosesMarked(Run(start, events[..k])) {
        StandsBefore(start, events, k);
        RunKeepsMarks(start, events[..k]);
      }
    }
    if forall k :: 0 <= k <= |events| ==> ClosesMarked(Run(start, events[..k])) {
      forall k | 0 <= k < |events| ensures !ClearsAnothersMark(Run(start, events[..k]), events[k]) {
        assert ClosesMarked(Run(start, events[..k])) && ClosesMarked(Run(start, events[..k + 1]));
        assert events[..k + 1][..k] == events[..k];
        MarksExactly(Run(start, events[..k]), events[k]);
      }
    }
  }

  lemma StandsBefore(start: State, events: seq<Event>, k: nat)
    requires MarksStand(start, events) && k <= |events|
    ensures MarksStand(start, events[..k])
  {
    hide ClearsAnothersMark;
    forall i | 0 <= i < k ensures !ClearsAnothersMark(Run(start, events[..k][..i]), events[..k][i]) {
      assert events[..k][..i] == events[..i];
      assert !ClearsAnothersMark(Run(start, events[..i]), events[i]);
    }
  }

  // ----- Closes in turn -----

  /** At most one close of a vault in progress. */
  ghost predicate OneCloser(s: State) {
    forall t, u :: Closing(s.Pc(t)) && Closing(s.Pc(u)) && s.Pc(t).dir == s.Pc(u).dir ==> t == u
  }

  /** No close of a vault begins while another one of it is in progress. */
  ghost predicate ClosesInTurn(s: State, e: Event) {
    e.BeginClose? ==> forall u :: Closing(s.Pc(u)) ==> s.Pc(u).dir != e.dir
  }

  lemma InTurnKeepsOne(s: State, e: Event)
    requires OneCloser(s) && ClosesInTurn(s, e)
    ensures OneCloser(Apply(s, e))
  {
    if !e.Move? {
      BeginKeepsOne(s, e);
    } else if CanAdvance(s, e.t) {
      MoveKeepsOne(s, e.t, e.ok);
    }
    hide Apply;
    hide OneCloser;
  }

  lemma MoveKeepsOne(s: State, t: Tid, ok: bool)
    requires OneCloser(s) && CanAdvance(s, t)
    ensures OneCloser(Advance(s, t, ok)) && Apply(s, Move(t, ok)) == Advance(s, t, ok)
  {
    MoveEffect(s, t, ok);
    hide Advance;
    hide CanAdvance;
    hide OwnUnlock;
    hide OwnDir;
    var next := Advance(s, t, ok);
    assert forall u :: u != t ==> next.Pc(u) == s.Pc(u);
  }

  lemma BeginKeepsOne(s: State, e: Event)
    requires OneCloser(s) && ClosesInTurn(s, e) && !e.Move?
    ensures OneCloser(Apply(s, e))
  {
    BeginEffect(s, e);
    hide Apply;
    var next := Apply(s, e);
    assert forall u :: next.Pc(u) == s.Pc(u) || (!e.Save? && u == e.t && (Closing(next.Pc(u)) ==> e.BeginClose?));
  }

  ghost predicate AllInTurn(start: State, events: seq<Event>) {
    forall k :: 0 <= k < |events| ==> ClosesInTurn(Run(start, events[..k]), events[k])
  }

  lemma {:induction false} OneCloserInTurn(start: State, events: seq<Event>)
    requires AtRest(start) && AllInTurn(start, events)
    ensures OneCloser(Run(start, events))
  {
    hide ClosesInTurn;
    hide Apply;
    if events != [] {
      var front := events[..|events| - 1];
      forall k | 0 <= k < |front| ensures ClosesInTurn(Run(start, front[..k]), front[k]) {
        assert front[..k] == events[..k];
        assert ClosesInTurn(Run(start, events[..k]), events[k]);
      }
      assert events[..|front|] == front;
      OneCloserInTurn(start, front);
      InTurnKeepsOne(Run(start, front), events[|front|]);
    }
  }

  /** When the caller begins no close of a vault before the last one has returned, all marks stand. */
  lemma InTurnMarksStand(start: State, events: seq<Event>)
    requires AtRest(start) && AllInTurn(start, events)
    ensures MarksStand(start, events)
  {
    hide ClosesInTurn;
    hide Run;
    forall k | 0 <= k < |events| ensures !ClearsAnothersMark(Run(start, events[..k]), events[k]) {
      forall i | 0 <= i < k ensures ClosesInTurn(Run(start, events[..k][..i]), events[..k][i]) {
        assert events[..k][..i] == events[..i];
        assert ClosesInTurn(Run(start, events[..i]), events[i]);
      }
      OneCloserInTurn(start, events[..k]);
    }
  }

  // ----- Busy without a gap -----

  lemma ActiveBlocks(s: State, d: Dir)
    requires UnlockGateHeld(s) && ClosesMarked(s) && Active(s, d)
    ensures BlocksRootSwitch(s) && BlocksQuiet(s, d)
  {
  }

  /** From the moment an open takes the unlock gate until a close has persisted, the root switch
      and every quiet configuration change of the vault are blocked, whatever else runs. */
  lemma BusyWithoutAGap(start: State, events: seq<Event>, d: Dir)
    requires AtRest(start) && MarksStand(start, events) && Active(Run(start, events), d)
    ensures BlocksRootSwitch(Run(start, events)) && BlocksQuiet(Run(start, events), d)
  {
    hide Active;
    RunKeepsLocks(start, events);
    RunKeepsMarks(start, events);
    ActiveBlocks(Run(start, events), d);
  }

  /** The open is refused: by the throttle, the configuration, the password or the store. */
  predicate OpenRefused(s: State, e: Event, d: Dir) {
    e.Move? && CanAdvance(s, e.t) && OpensHolding(s.Pc(e.t), d) && Advance(s, e.t, e.ok).Pc(e.t).OpenLeaves?
  }

  predicate ClosePersisted(s: State, e: Event, d: Dir) {
    e.Move? && s.Pc(e.t).CloseFlushes? && s.Pc(e.t).dir == d && e.ok
  }

  predicate TakesGate(s: State, e: Event, d: Dir) {
    e.Move? && s.Pc(e.t) == OpenWaits(d) && s.unlockGate.None?
  }

  /** One thread's own activity survives its move, unless the open is refused or the close has
      persisted; an inserted or put back session is in the map. */
  lemma OwnActivity(s: State, t: Tid, ok: bool)
    requires CanAdvance(s, t)
    ensures var p := s.Pc(t); var next := Advance(s, t, ok); var q := next.Pc(t);
            && (!p.Idle? && OpensHolding(p, p.dir) ==> q.OpenLeaves? || OpensHolding(q, p.dir))
            && (!p.Idle? && ClosesWith(p, p.dir) ==>
                  (p.CloseFlushes? && ok) || p.dir in next.sessions || ClosesWith(q, p.dir))
            && (p.OpenWaits? ==> OpensHolding(q, p.dir))
            && (forall d :: d in s.sessions ==> d in next.sessions || (d == p.dir && ClosesWith(q, d)))
  {
    hide Load;
    hide Written;
    if Opening(s.Pc(t)) {
      hide AdvanceClose;
      hide AdvanceCreate;
    } else if Closing(s.Pc(t)) {
      hide AdvanceOpen;
      hide AdvanceCreate;
    } else {
      hide AdvanceOpen;
      hide AdvanceClose;
    }
  }

  lemma MoveActivity(s: State, t: Tid, ok: bool, d: Dir)
    requires CanAdvance(s, t) && Active(s, d)
    ensures Active(Advance(s, t, ok), d) || OpenRefused(s, Move(t, ok), d) || ClosePersisted(s, Move(t, ok), d)
  {
    MoveEffect(s, t, ok);
    OwnActivity(s, t, ok);
    hide Advance;
    hide CanAdvance;
    hide OwnUnlock;
    hide OwnDir;
    hide OwnMark;
    var next := Advance(s, t, ok);
    if d in s.sessions {
      assert d in next.sessions || ClosesWith(next.Pc(t), d);
    } else {
      var u :| OpensHolding(s.Pc(u), d) || ClosesWith(s.Pc(u), d);
      assert u != t ==> next.Pc(u) == s.Pc(u);
    }
  }

  lemma BeginActivity(s: State, e: Event, d: Dir)
    requires !e.Move? && Active(s, d)
    ensures Active(Apply(s, e), d)
  {
    BeginEffect(s, e);
    hide Apply;
    var next := Apply(s, e);
    if d !in s.sessions {
      var u :| OpensHolding(s.Pc(u), d) || ClosesWith(s.Pc(u), d);
      assert next.Pc(u) == s.Pc(u);
    }
  }

  /** Activity begins when an open takes the gate and ends only with a refused open or a close
      that has persisted: a failed close puts the session back without a gap. */
  lemma ActivityEnds(s: State, e: Event, d: Dir)
    ensures TakesGate(s, e, d) ==> Active(Apply(s, e), d)
    ensures Active(s, d) && !Active(Apply(s, e), d) ==> OpenRefused(s, e, d) || ClosePersisted(s, e, d)
  {
    if TakesGate(s, e, d) {
      OwnActivity(s, e.t, e.ok);
      hide Advance;
      assert OpensHolding(Apply(s, e).Pc(e.t), d);
    }
    hide Advance;
    hide OpenRefused;
    if Active(s, d) {
      hide Active;
      if !e.Move? {
        BeginActivity(s, e, d);
      } else if CanAdvance(s, e.t) {
        MoveActivity(s, e.t, e.ok, d);
      }
    }
  }

  // ----- Quiet fields are frozen -----

  /** The file still gives what the session's open read, up to the fields left free. */
  ghost predicate Fits(file: Option<Config>, d: Dir, session: Session) {
    && Load(file, d).Ok?
    && SameQuiet(Load(file, d).value, session.loaded)
    && session.mode == Load(file, d).value.security
  }

  /** The session a thread is about to insert, or has taken out to close, until the close ends. */
  function Carried(pc: Place): Option<Session> {
    match pc
    case OpenDerives(_, c) => Some(Session(c.security.Normalized(), c))
    case OpenInserts(_, c) => Some(Session(c.security.Normalized(), c))
    case CloseChecks(_, session) => Some(session)
    case CloseFlushes(_, session) => Some(session)
    case ClosePutsBack(_, session) => Some(session)
    case CloseLeaves(_, closed) => closed
    case _ => None
  }

  ghost predicate SessionsFit(s: State) {
    && (forall d :: d in s.sessions ==> Fits(s.File(d), d, s.sessions[d]))
    && (forall t :: Carried(s.Pc(t)).Some? ==> Fits(s.File(s.Pc(t).dir), s.Pc(t).dir, Carried(s.Pc(t)).value))
  }

  /** Somebody holds a session of the vault or what its open loaded. */
  ghost predicate Relied(s: State, d: Dir) {
    d in s.sessions || exists t :: Carried(s.Pc(t)).Some? && s.Pc(t).dir == d
  }

  /** A create that fails removes its directory only while nobody relies on it. */
  ghost predicate RollsBackUnused(s: State, e: Event) {
    e.Move? && s.Pc(e.t).CreateRollsBack? ==> !Relied(s, s.Pc(e.t).dir)
  }

  /** What an open or a close hands over: sessions come from what threads carry, and threads get
      them from the map or from the file. */
  ghost predicate HandsOver(s: State, t: Tid, next: State) {
    var p, q := s.Pc(t), next.Pc(t);
    && next.disk == s.disk && next.pcs == s.pcs[t := q] && !p.Idle? && (q.Idle? || q.dir == p.dir)
    && (next.sessions == s.sessions || next.sessions == s.sessions - {p.dir}
        || (Carried(p).Some? && next.sessions == s.sessions[p.dir := Carried(p).value]))
    && (Carried(q).Some? ==>
          || Carried(q) == Carried(p)
          || (p.dir in s.sessions && Carried(q).value == s.sessions[p.dir])
          || Fits(s.File(p.dir), p.dir, Carried(q).value))
  }

  lemma LoadedFits(file: Option<Config>, d: Dir)
    requires Load(file, d).Ok?
    ensures var c := Load(file, d).value; Fits(file, d, Session(c.security.Normalized(), c))
  {
  }

  lemma OpenHandsOver(s: State, t: Tid, ok: bool)
    requires CanAdvance(s, t) && Opening(s.Pc(t))
    ensures HandsOver(s, t, AdvanceOpen(s, t, ok))
  {
    hide Load;
    hide Fits;
    OpenEffect(s, t, ok);
    if s.Pc(t).OpenLoads? {
      if Load(s.File(s.Pc(t).dir), s.Pc(t).dir).Ok? {
        LoadedFits(s.File(s.Pc(t).dir), s.Pc(t).dir);
      }
    }
    hide OwnUnlock;
    hide OwnDir;
    hide OwnMark;
  }

  lemma CloseHandsOver(s: State, t: Tid, ok: bool)
    requires CanAdvance(s, t) && Closing(s.Pc(t))
    ensures HandsOver(s, t, AdvanceClose(s, t, ok))
  {
    hide Fits;
  }

  lemma HandOverKeepsFit(s: State, t: Tid, next: State)
    requires SessionsFit(s) && HandsOver(s, t, next)
    ensures SessionsFit(next)
  {
    hide Fits;
    assert forall d :: next.File(d) == s.File(d);
    assert forall u :: u != t ==> next.Pc(u) == s.Pc(u);
  }

  lemma CreateCarriesNothing(s: State, t: Tid, ok: bool)
    requires CanAdvance(s, t) && !Opening(s.Pc(t)) && !Closing(s.Pc(t))
    ensures var next := AdvanceCreate(s, t, ok);
            next.sessions == s.sessions && Carried(s.Pc(t)).None? && Carried(next.Pc(t)).None?
  {
    hide Written;
    hide CanAdvance;
  }

  /** The only files a create changes are those of a directory whose configuration is not there
      yet, or which it removes. */
  lemma CreateFiles(s: State, t: Tid, ok: bool, d: Dir)
    requires CanAdvance(s, t) && !Opening(s.Pc(t)) && !Closing(s.Pc(t))
    requires DirGatesHeld(s) && Stage(s, s.Pc(t).dir)
    ensures var next := AdvanceCreate(s, t, ok);
            next.File(d) == s.File(d) || s.File(d).None? || (s.Pc(t).CreateRollsBack? && d == s.Pc(t).dir)
  {
    hide Written;
    if d != s.Pc(t).dir {
      CreateLeavesOthers(s, t, ok, d);
      hide AdvanceCreate;
      hide Stage;
      hide DirGatesHeld;
    } else {
      hide Settled;
    }
  }

  /** Files change only where nobody relies on them, or keep fitting. */
  lemma FilesKeepFit(s: State, next: State)
    requires SessionsFit(s) && next.sessions == s.sessions
    requires forall t :: Carried(next.Pc(t)).Some? ==>
               Carried(next.Pc(t)) == Carried(s.Pc(t)) && next.Pc(t).dir == s.Pc(t).dir
    requires forall d, session :: Relied(s, d) && Fits(s.File(d), d, session) ==> Fits(next.File(d), d, session)
    ensures SessionsFit(next)
  {
    hide Fits;
    forall t | Carried(next.Pc(t)).Some?
      ensures Fits(next.File(next.Pc(t).dir), next.Pc(t).dir, Carried(next.Pc(t)).value)
    {
      assert Relied(s, s.Pc(t).dir);
    }
  }

  lemma CreateKeepsFit(s: State, t: Tid, ok: bool)
    requires CanAdvance(s, t) && !Opening(s.Pc(t)) && !Closing(s.Pc(t))
    requires Locked(s) && Stage(s, s.Pc(t).dir) && SessionsFit(s)
    requires s.Pc(t).CreateRollsBack? ==> !Relied(s, s.Pc(t).dir)
    ensures SessionsFit(AdvanceCreate(s, t, ok))
  {
    var next := AdvanceCreate(s, t, ok);
    CreateMovesOnlyItself(s, t, ok);
    CreateCarriesNothing(s, t, ok);
    CreateFilesFit(s, t, ok);
    hide AdvanceCreate;
    hide Locked;
    hide Stage;
    hide SessionsFit;
    hide Relied;
    hide Fits;
    assert forall u :: u != t ==> next.Pc(u) == s.Pc(u);
    FilesKeepFit(s, next);
  }

  lemma CreateFilesFit(s: State, t: Tid, ok: bool)
    requires CanAdvance(s, t) && !Opening(s.Pc(t)) && !Closing(s.Pc(t))
    requires Locked(s) && Stage(s, s.Pc(t).dir)
    requires s.Pc(t).CreateRollsBack? ==> !Relied(s, s.Pc(t).dir)
    ensures forall d, session ::
              Relied(s, d) && Fits(s.File(d), d, session) ==> Fits(AdvanceCreate(s, t, ok).File(d), d, session)
  {
    forall d, session | Relied(s, d) && Fits(s.File(d), d, session)
      ensures Fits(AdvanceCreate(s, t, ok).File(d), d, session)
    {
      CreateFiles(s, t, ok, d);
      if s.File(d).None? {
        NoFileFitsNothing(d, session);
      }
    }
    hide AdvanceCreate;
    hide Stage;
    hide Relied;
    hide Fits;
    hide DirGatesHeld;
    hide UnlockGateHeld;
  }

  lemma NoFileFitsNothing(d: Dir, session: Session)
    ensures !Fits(None, d, session)
  {
  }

  lemma SavedFileFits(file: Option<Config>, d: Dir, after: Config, session: Session)
    requires Fits(file, d, session) && CheckedSave(file, d, after, true, true).Ok?
    ensures Fits(Some(Written(after)), d, session)
  {
    hide NormalizeMount;
    hide Trim;
    CheckedSaveIsExact(file, d, after, true);
    assert CheckedSave(file, d, after, true, true).value == Written(after);
  }

  lemma ConfigKeepsFit(s: State, dir: Dir, after: Config)
    requires dir in s.disk && SessionsFit(s)
    requires CheckedSave(s.File(dir), dir, after, Relied(s, dir), true).Ok?
    ensures SessionsFit(WithConfig(s, dir, Written(after)))
  {
    hide CheckedSave;
    hide Fits;
    hide Written;
    var next := WithConfig(s, dir, Written(after));
    assert forall u :: next.Pc(u) == s.Pc(u);
    assert forall d :: next.File(d) == if d == dir then Some(Written(after)) else s.File(d);
    forall d, session | Relied(s, d) && Fits(s.File(d), d, session) ensures Fits(next.File(d), d, session) {
      if d == dir {
        SavedFileFits(s.File(d), d, after, session);
      }
    }
    FilesKeepFit(s, next);
  }

  lemma BusyOnlyRefuses(file: Option<Config>, d: Dir, after: Config)
    requires CheckedSave(file, d, after, true, true).Ok?
    ensures CheckedSave(file, d, after, false, true).Ok?
  {
  }

  lemma SaveKeepsFit(s: State, e: Event)
    requires e.Save? && SessionsFit(s) && UnlockGateHeld(s) && ClosesMarked(s)
    ensures SessionsFit(Apply(s, e))
  {
    SaveEffect(s, e);
    hide Apply;
    hide CheckedSave;
    hide SessionsFit;
    hide UnlockGateHeld;
    hide ClosesMarked;
    hide BlocksQuiet;
    if Apply(s, e) != s {
      if Relied(s, e.dir) {
        ReliedBlocks(s, e.dir);
      } else if BlocksQuiet(s, e.dir) {
        BusyOnlyRefuses(s.File(e.dir), e.dir, e.after);
      }
      ConfigKeepsFit(s, e.dir, e.after);
    }
  }

  lemma ReliedBlocks(s: State, d: Dir)
    requires UnlockGateHeld(s) && ClosesMarked(s) && Relied(s, d)
    ensures BlocksQuiet(s, d)
  {
  }

  lemma MoveKeepsFit(s: State, t: Tid, ok: bool)
    requires CanAdvance(s, t) && Locked(s) && SessionsFit(s)
    requires !s.Pc(t).Idle? ==> Stage(s, s.Pc(t).dir)
    requires s.Pc(t).CreateRollsBack? ==> !Relied(s, s.Pc(t).dir)
    ensures SessionsFit(Advance(s, t, ok))
  {
    hide AdvanceOpen;
    hide AdvanceClose;
    hide AdvanceCreate;
    hide SessionsFit;
    hide HandsOver;
    hide Stage;
    hide Relied;
    hide Locked;
    if Opening(s.Pc(t)) {
      OpenHandsOver(s, t, ok);
      HandOverKeepsFit(s, t, AdvanceOpen(s, t, ok));
    } else if Closing(s.Pc(t)) {
      CloseHandsOver(s, t, ok);
      HandOverKeepsFit(s, t, AdvanceClose(s, t, ok));
    } else {
      CreateKeepsFit(s, t, ok);
    }
  }

  lemma BeginKeepsFit(s: State, e: Event)
    requires !e.Move? && !e.Save? && SessionsFit(s)
    ensures SessionsFit(Apply(s, e))
  {
    hide Fits;
    BeginEffect(s, e);
    hide Apply;
    var next := Apply(s, e);
    assert forall u :: Carried(next.Pc(u)).Some? ==> next.Pc(u) == s.Pc(u);
    assert forall d :: next.File(d) == s.File(d);
  }

  /** No close clears the mark of another, and no rollback takes a directory in use. */
  ghost predicate Orderly(start: State, events: seq<Event>) {
    && MarksStand(start, events)
    && forall k :: 0 <= k < |events| ==> RollsBackUnused(Run(start, events[..k]), events[k])
  }

  lemma PrefixOrderly(start: State, events: seq<Event>)
    requires Orderly(start, events) && events != []
    ensures Orderly(start, events[..|events| - 1])
    ensures RollsBackUnused(Run(start, events[..|events| - 1]), events[|events| - 1])
  {
    PrefixStands(start, events);
    hide MarksStand;
    hide RollsBackUnused;
    var front := events[..|events| - 1];
    forall k | 0 <= k < |front| ensures RollsBackUnused(Run(start, front[..k]), front[k]) {
      assert front[..k] == events[..k];
      assert RollsBackUnused(Run(start, events[..k]), events[k]);
    }
  }

  lemma {:induction false} RunKeepsFit(start: State, events: seq<Event>)
    requires AtRest(start) && Orderly(start, events)
    ensures SessionsFit(Run(start, events))
  {
    if events != [] {
      var front, e := events[..|events| - 1], events[|events| - 1];
      PrefixOrderly(start, events);
      RunKeepsFit(start, front);
      RunKeepsLocks(start, front);
      RunKeepsMarks(start, front);
      var s := Run(start, front);
      hide SessionsFit;
      hide Locked;
      hide ClosesMarked;
      hide Advance;
      if e.Save? {
        assert UnlockGateHeld(s) by {
          RunKeepsLocks(start, front);
          LockedUnlock(s);
        }
        SaveKeepsFit(s, e);
      } else if !e.Move? {
        BeginKeepsFit(s, e);
      } else if CanAdvance(s, e.t) {
        RunKeepsStages(start, front, s.Pc(e.t).dir);
        MoveKeepsFit(s, e.t, e.ok);
      }
    }
  }

  lemma LockedUnlock(s: State)
    requires Locked(s)
    ensures UnlockGateHeld(s)
  {
  }

  /** From the configuration load inside an open until the close has ended, no sequence of
      checked saves changes the vault's display name, mount, storage mode or normalized security
      mode on disk, and the session's mode is the one on disk. */
  lemma QuietFieldsFrozen(start: State, events: seq<Event>, d: Dir, session: Session)
    requires AtRest(start) && Orderly(start, events)
    requires var s := Run(start, events);
             || (d in s.sessions && s.sessions[d] == session)
             || exists t :: Carried(s.Pc(t)) == Some(session) && s.Pc(t).dir == d
    ensures Fits(Run(start, events).File(d), d, session)
  {
    RunKeepsFit(start, events);
  }

  /** Exactly when the rollback of a failed create is harmless: nobody has loaded the vault it
      removes. Nothing in the code waits for that (see `SessionOutlivesItsVault`). */
  lemma RollBackIsSafeExactly(s: State, t: Tid, ok: bool)
    requires Locked(s) && SessionsFit(s) && s.Pc(t).CreateRollsBack? && Stage(s, s.Pc(t).dir)
    ensures SessionsFit(Advance(s, t, ok)) <==> !Relied(s, s.Pc(t).dir)
  {
    if Relied(s, s.Pc(t).dir) {
      RollBackBreaks(s, t, ok);
    } else {
      MoveKeepsFit(s, t, ok);
    }
    hide Relied;
    hide SessionsFit;
    hide Advance;
    hide Stage;
  }

  lemma RollBackBreaks(s: State, t: Tid, ok: bool)
    requires s.Pc(t).CreateRollsBack? && Relied(s, s.Pc(t).dir)
    ensures !SessionsFit(Advance(s, t, ok))
  {
    var d := s.Pc(t).dir;
    var next := Advance(s, t, ok);
    assert next.File(d).None? && next.sessions == s.sessions && next.pcs == s.pcs[t := next.Pc(t)];
    hide Advance;
    if d in s.sessions {
      NoFileFitsNothing(d, next.sessions[d]);
    } else {
      var u :| Carried(s.Pc(u)).Some? && s.Pc(u).dir == d;
      assert next.Pc(u) == s.Pc(u);
      NoFileFitsNothing(d, Carried(next.Pc(u)).value);
    }
    hide Fits;
  }
}
