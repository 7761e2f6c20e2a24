/** Threads that open, create, close and reconfigure vaults, one lock operation at a time. */
module VaultProtocol {
  import opened Wrappers
  import opened VaultConfigs

  type Tid = int
  type Dir = string

  /** A vault directory: its configuration file, whether the store is seeded, and whether
      `persistence.json` is written. */
  datatype VaultDir = VaultDir(config: Option<Config>, seeded: bool, persisted: bool)

  /** The session keeps the security mode; `loaded` is the configuration its open read. */
  datatype Session = Session(mode: SecurityMode, loaded: Config)

  /** Where a thread is. `Open*` from `OpenChecks` on hold the unlock gate, as does `CreateDerives`;
      `Create*` from `CreateMakes` on hold their directory's gate; `Close*` from `CloseTakes` on
      have set the closing mark; `CloseLeaves` has persisted and closed the session it names. */
  datatype Place =
    | Idle
    | OpenWaits(dir: Dir)
    | OpenChecks(dir: Dir)
    | OpenLoads(dir: Dir)
    | OpenDerives(dir: Dir, loaded: Config)
    | OpenInserts(dir: Dir, loaded: Config)
    | OpenLeaves(dir: Dir)
    | CreateWaits(dir: Dir, config: Config)
    | CreateMakes(dir: Dir, config: Config)
    | CreateSaves(dir: Dir, config: Config)
    | CreateWaitsUnlock(dir: Dir)
    | CreateDerives(dir: Dir)
    | CreatePersists(dir: Dir)
    | CreateRollsBack(dir: Dir)
    | CreateLeaves(dir: Dir)
    | CloseEnters(dir: Dir)
    | CloseTakes(dir: Dir)
    | CloseChecks(dir: Dir, session: Session)
    | CloseFlushes(dir: Dir, session: Session)
    | ClosePutsBack(dir: Dir, session: Session)
    | CloseLeaves(dir: Dir, closed: Option<Session>)

  /** `won` counts the creates of each directory that succeeded (one for each vault present at the
      start); `refused` holds the directories for which a create found the vault already there. */
  datatype State = State(
    disk: map<Dir, VaultDir>, sessions: map<Dir, Session>, closing: set<Dir>,
    unlockGate: Option<Tid>, dirGates: map<Dir, Tid>, pcs: map<Tid, Place>,
    won: multiset<Dir>, refused: set<Dir>)
  {
    function Pc(t: Tid): Place {
      if t in pcs then pcs[t] else Idle
    }

    function At(t: Tid, pc: Place): State {
      this.(pcs := pcs[t := pc])
    }

    function File(dir: Dir): Option<Config> {
      if dir in disk then disk[dir].config else None
    }
  }

  // ----- Steps -----

  predicate CanAdvance(s: State, t: Tid) {
    match s.Pc(t)
    case Idle => false
    case OpenWaits(_) => s.unlockGate.None?
    case CreateWaitsUnlock(_) => s.unlockGate.None?
    case CreateWaits(dir, _) => dir !in s.dirGates
    case _ => true
  }

  /** `open_vault` after its password and directory checks. `ok` is false when the throttle, the
      mount check, the password or the store refuses. */
  function AdvanceOpen(s: State, t: Tid, ok: bool): State
    requires CanAdvance(s, t)
  {
    match s.Pc(t)
    case OpenWaits(d) => s.(unlockGate := Some(t)).At(t, OpenChecks(d))
    case OpenChecks(d) => s.At(t, if ok && d !in s.sessions then OpenLoads(d) else OpenLeaves(d))
    case OpenLoads(d) =>
      var loaded := Load(s.File(d), d);
      s.At(t, if ok && loaded.Ok? && loaded.value.storage != UprivPlain then OpenDerives(d, loaded.value)
              else OpenLeaves(d))
    case OpenDerives(d, c) =>
      s.At(t, if ok && d in s.disk && s.disk[d].seeded then OpenInserts(d, c) else OpenLeaves(d))
    case OpenInserts(d, c) => InsertSession(s, d, Session(c.security.Normalized(), c)).At(t, OpenLeaves(d))
    case OpenLeaves(_) => s.(unlockGate := None).At(t, Idle)
    case _ => s
  }

  /** `insert_session` refuses to replace a session. */
  function InsertSession(s: State, d: Dir, session: Session): State {
    if d in s.sessions then s else s.(sessions := s.sessions[d := session])
  }

  /** `create_vault` once the password and the storage mode are accepted. */
  function AdvanceCreate(s: State, t: Tid, ok: bool): State
    requires CanAdvance(s, t)
  {
    match s.Pc(t)
    case CreateWaits(d, c) => s.(dirGates := s.dirGates[d := t]).At(t, CreateMakes(d, c))
    case CreateMakes(d, c) =>
      if d in s.disk then s.(refused := s.refused + {d}).At(t, CreateLeaves(d))
      else if ok then s.(disk := s.disk[d := VaultDir(None, false, false)]).At(t, CreateSaves(d, c))
      else s.At(t, CreateLeaves(d))
    case CreateSaves(d, c) =>
      if ok && d in s.disk then
        s.(disk := s.disk[d := s.disk[d].(config := Some(Written(c)))]).At(t, CreateWaitsUnlock(d))
      else s.At(t, CreateRollsBack(d))
    case CreateWaitsUnlock(d) => s.(unlockGate := Some(t)).At(t, CreateDerives(d))
    case CreateDerives(d) =>
      var released := s.(unlockGate := None);
      if ok && d in s.disk then released.(disk := s.disk[d := s.disk[d].(seeded := true)]).At(t, CreatePersists(d))
      else released.At(t, CreateRollsBack(d))
    case CreatePersists(d) =>
      if ok && d in s.disk then
        s.(disk := s.disk[d := s.disk[d].(persisted := true)], won := s.won + multiset{d}).At(t, CreateLeaves(d))
      else s.At(t, CreateRollsBack(d))
    case CreateRollsBack(d) => s.(disk := s.disk - {d}).At(t, CreateLeaves(d))
    case CreateLeaves(d) => s.(dirGates := s.dirGates - {d}).At(t, Idle)
    case _ => s
  }

  /** `close_vault` after its directory check; `ok` says whether a password came with it in the
      prompt check, and whether the flush and `persistence.json` were written. */
  function AdvanceClose(s: State, t: Tid, ok: bool): State
    requires CanAdvance(s, t)
  {
    match s.Pc(t)
    case CloseEnters(d) => s.(closing := s.closing + {d}).At(t, CloseTakes(d))
    case CloseTakes(d) =>
      if d in s.sessions then s.(sessions := s.sessions - {d}).At(t, CloseChecks(d, s.sessions[d]))
      else s.At(t, CloseLeaves(d, None))
    case CloseChecks(d, session) =>
      s.At(t, if session.mode == AlwaysPrompt && !ok then ClosePutsBack(d, session) else CloseFlushes(d, session))
    case CloseFlushes(d, session) => s.At(t, if ok then CloseLeaves(d, Some(session)) else ClosePutsBack(d, session))
    case ClosePutsBack(d, session) => InsertSession(s, d, session).At(t, CloseLeaves(d, None))
    case CloseLeaves(d, _) => s.(closing := s.closing - {d}).At(t, Idle)
    case _ => s
  }

  predicate Opening(pc: Place) {
    pc.OpenWaits? || pc.OpenChecks? || pc.OpenLoads? || pc.OpenDerives? || pc.OpenInserts? || pc.OpenLeaves?
  }

  predicate Closing(pc: Place) {
    pc.CloseEnters? || pc.CloseTakes? || pc.CloseChecks? || pc.CloseFlushes? || pc.ClosePutsBack? || pc.CloseLeaves?
  }

  function Advance(s: State, t: Tid, ok: bool): State
    requires CanAdvance(s, t)
  {
    if Opening(s.Pc(t)) then AdvanceOpen(s, t, ok)
    else if Closing(s.Pc(t)) then AdvanceClose(s, t, ok)
    else AdvanceCreate(s, t, ok)
  }

  /** `Save` is a checked configuration save, taken as one step. */
  datatype Event =
    | BeginOpen(t: Tid, dir: Dir)
    | BeginCreate(t: Tid, dir: Dir, config: Config)
    | BeginClose(t: Tid, dir: Dir)
    | Move(t: Tid, ok: bool)
    | Save(dir: Dir, after: Config, writable: bool)

  function SaveStep(s: State, dir: Dir, after: Config, writable: bool): State {
    var saved := CheckedSave(s.File(dir), dir, after, BlocksQuiet(s, dir), writable);
    if saved.Ok? && dir in s.disk then s.(disk := s.disk[dir := s.disk[dir].(config := Some(saved.value))]) else s
  }

  /** A call by a thread still busy with another, and a move of a waiting thread, do nothing. */
  function Apply(s: State, e: Event): State {
    match e
    case BeginOpen(t, dir) => if s.Pc(t).Idle? && dir in s.disk then s.At(t, OpenWaits(dir)) else s
    case BeginCreate(t, dir, c) =>
      if s.Pc(t).Idle? && c.storage != UprivPlain then s.At(t, CreateWaits(dir, c.(id := dir))) else s
    case BeginClose(t, dir) => if s.Pc(t).Idle? && dir in s.disk then s.At(t, CloseEnters(dir)) else s
    case Move(t, ok) => if CanAdvance(s, t) then Advance(s, t, ok) else s
    case Save(dir, after, writable) => SaveStep(s, dir, after, writable)
  }

  // ----- What the rest of the program asks -----

  /** `vault_activity_blocks_root_switch`, its three reads taken in one state. */
  predicate BlocksRootSwitch(s: State) {
    s.sessions != map[] || s.closing != {} || s.unlockGate.Some?
  }

  /** `session_blocks_quiet`. */
  predicate BlocksQuiet(s: State, dir: Dir) {
    dir in s.sessions || dir in s.closing || s.unlockGate.Some?
  }

  /** A close of the vault that has taken the session and not yet persisted it. */
  predicate ClosesWith(pc: Place, dir: Dir) {
    (pc.CloseChecks? || pc.CloseFlushes? || pc.ClosePutsBack?) && pc.dir == dir
  }

  /** An open of the vault that holds the unlock gate, before the session is in the map. */
  predicate OpensHolding(pc: Place, dir: Dir) {
    (pc.OpenChecks? || pc.OpenLoads? || pc.OpenDerives? || pc.OpenInserts?) && pc.dir == dir
  }

  /** From the moment an open of the vault takes the unlock gate until a close has persisted. */
  ghost predicate Active(s: State, dir: Dir) {
    || dir in s.sessions
    || exists t :: OpensHolding(s.Pc(t), dir) || ClosesWith(s.Pc(t), dir)
  }

  // ----- Locks -----

  predicate HoldsUnlock(pc: Place) {
    pc.OpenChecks? || pc.OpenLoads? || pc.OpenDerives? || pc.OpenInserts? || pc.OpenLeaves? || pc.CreateDerives?
  }

  predicate InKeyDerivation(pc: Place) {
    pc.OpenDerives? || pc.CreateDerives?
  }

  predicate HoldsDir(pc: Place) {
    || pc.CreateMakes? || pc.CreateSaves? || pc.CreateWaitsUnlock? || pc.CreateDerives? || pc.CreatePersists?
    || pc.CreateRollsBack? || pc.CreateLeaves?
  }

  /** The close has set the mark of its directory and not cleared it. */
  predicate Marked(pc: Place) {
    Closing(pc) && !pc.CloseEnters?
  }

  ghost predicate UnlockGateHeld(s: State) {
    && (forall t :: HoldsUnlock(s.Pc(t)) ==> s.unlockGate == Some(t))
    && (s.unlockGate.Some? ==> HoldsUnlock(s.Pc(s.unlockGate.value)))
  }

  ghost predicate DirGatesHeld(s: State) {
    && (forall t :: HoldsDir(s.Pc(t)) ==> s.Pc(t).dir in s.dirGates && s.dirGates[s.Pc(t).dir] == t)
    && (forall d :: d in s.dirGates ==> HoldsDir(s.Pc(s.dirGates[d])) && s.Pc(s.dirGates[d]).dir == d)
  }

  ghost predicate Locked(s: State) {
    UnlockGateHeld(s) && DirGatesHeld(s)
  }

  // ----- What one move does to the shared state -----

  /** A move only moves its own thread, which stays on its directory, and takes and gives up the
      locks and the closing mark exactly where its place says so. */
  ghost predicate OwnEffect(s: State, t: Tid, next: State) {
    MovesOnlyItself(s, t, next) && OwnUnlock(s, t, next) && OwnDir(s, t, next) && OwnMark(s, t, next)
  }

  ghost predicate MovesOnlyItself(s: State, t: Tid, next: State) {
    var p, q := s.Pc(t), next.Pc(t);
    next.pcs == s.pcs[t := q] && !p.Idle? && (q.Idle? || q.dir == p.dir)
  }

  ghost predicate OwnUnlock(s: State, t: Tid, next: State) {
    var held, holds := HoldsUnlock(s.Pc(t)), HoldsUnlock(next.Pc(t));
    if held == holds then next.unlockGate == s.unlockGate
    else if holds then s.unlockGate == None && next.unlockGate == Some(t)
    else next.unlockGate == None
  }

  ghost predicate OwnDir(s: State, t: Tid, next: State)
    requires !s.Pc(t).Idle?
  {
    var held, holds, d := HoldsDir(s.Pc(t)), HoldsDir(next.Pc(t)), s.Pc(t).dir;
    if held == holds then next.dirGates == s.dirGates
    else if holds then d !in s.dirGates && next.dirGates == s.dirGates[d := t]
    else next.dirGates == s.dirGates - {d}
  }

  ghost predicate OwnMark(s: State, t: Tid, next: State)
    requires !s.Pc(t).Idle?
  {
    var marked, marks, d := Marked(s.Pc(t)), Marked(next.Pc(t)), s.Pc(t).dir;
    && (Closing(next.Pc(t)) ==> Closing(s.Pc(t)))
    && if marked == marks then next.closing == s.closing
       else if marks then next.closing == s.closing + {d}
       else next.closing == s.closing - {d}
  }

  lemma OpenMovesOnlyItself(s: State, t: Tid, ok: bool)
    requires CanAdvance(s, t) && Opening(s.Pc(t))
    ensures MovesOnlyItself(s, t, AdvanceOpen(s, t, ok)) && OwnUnlock(s, t, AdvanceOpen(s, t, ok))
  {
    hide Load;
  }

  lemma OpenOwnDir(s: State, t: Tid, ok: bool)
    requires CanAdvance(s, t) && Opening(s.Pc(t))
    ensures OwnDir(s, t, AdvanceOpen(s, t, ok))
  {
    hide Load;
  }

  lemma OpenOwnMark(s: State, t: Tid, ok: bool)
    requires CanAdvance(s, t) && Opening(s.Pc(t))
    ensures OwnMark(s, t, AdvanceOpen(s, t, ok))
  {
    hide Load;
  }

  lemma OpenEffect(s: State, t: Tid, ok: bool)
    requires CanAdvance(s, t) && Opening(s.Pc(t))
    ensures OwnEffect(s, t, AdvanceOpen(s, t, ok))
  {
    OpenMovesOnlyItself(s, t, ok);
    OpenOwnDir(s, t, ok);
    OpenOwnMark(s, t, ok);
    hide AdvanceOpen;
  }

  lemma CloseMovesOnlyItself(s: State, t: Tid, ok: bool)
    requires CanAdvance(s, t) && Closing(s.Pc(t))
    ensures MovesOnlyItself(s, t, AdvanceClose(s, t, ok)) && OwnUnlock(s, t, AdvanceClose(s, t, ok))
  {
  }

  lemma CloseOwnDir(s: State, t: Tid, ok: bool)
    requires CanAdvance(s, t) && Closing(s.Pc(t))
    ensures OwnDir(s, t, AdvanceClose(s, t, ok)) && OwnMark(s, t, AdvanceClose(s, t, ok))
  {
  }

  lemma CloseEffect(s: State, t: Tid, ok: bool)
    requires CanAdvance(s, t) && Closing(s.Pc(t))
    ensures OwnEffect(s, t, AdvanceClose(s, t, ok))
  {
    CloseMovesOnlyItself(s, t, ok);
    CloseOwnDir(s, t, ok);
    hide AdvanceClose;
  }

  lemma CreateMovesOnlyItself(s: State, t: Tid, ok: bool)
    requires CanAdvance(s, t) && !Opening(s.Pc(t)) && !Closing(s.Pc(t))
    ensures MovesOnlyItself(s, t, AdvanceCreate(s, t, ok))
  {
    hide Written;
  }

  lemma CreateOwnUnlock(s: State, t: Tid, ok: bool)
    requires CanAdvance(s, t) && !Opening(s.Pc(t)) && !Closing(s.Pc(t))
    ensures OwnUnlock(s, t, AdvanceCreate(s, t, ok))
  {
    hide Written;
  }

  lemma CreateOwnDir(s: State, t: Tid, ok: bool)
    requires CanAdvance(s, t) && !Opening(s.Pc(t)) && !Closing(s.Pc(t))
    ensures OwnDir(s, t, AdvanceCreate(s, t, ok)) && OwnMark(s, t, AdvanceCreate(s, t, ok))
  {
    hide Written;
  }

  lemma CreateEffect(s: State, t: Tid, ok: bool)
    requires CanAdvance(s, t) && !Opening(s.Pc(t)) && !Closing(s.Pc(t))
    ensures OwnEffect(s, t, AdvanceCreate(s, t, ok))
  {
    hide AdvanceCreate;
    CreateMovesOnlyItself(s, t, ok);
    CreateOwnUnlock(s, t, ok);
    CreateOwnDir(s, t, ok);
  }

  lemma MoveEffect(s: State, t: Tid, ok: bool)
    requires CanAdvance(s, t)
    ensures OwnEffect(s, t, Advance(s, t, ok))
  {
    hide AdvanceOpen;
    hide AdvanceClose;
    hide AdvanceCreate;
    hide OwnEffect;
    if Opening(s.Pc(t)) {
      OpenEffect(s, t, ok);
    } else if Closing(s.Pc(t)) {
      CloseEffect(s, t, ok);
    } else {
      CreateEffect(s, t, ok);
    }
  }

  lemma MoveKeepsUnlockGate(s: State, t: Tid, ok: bool)
    requires UnlockGateHeld(s) && CanAdvance(s, t)
    ensures UnlockGateHeld(Advance(s, t, ok))
  {
    MoveEffect(s, t, ok);
    hide Advance;
    hide CanAdvance;
    var next := Advance(s, t, ok);
    assert forall u :: u != t ==> next.Pc(u) == s.Pc(u);
  }

  lemma MoveKeepsDirGates(s: State, t: Tid, ok: bool)
    requires DirGatesHeld(s) && CanAdvance(s, t)
    ensures DirGatesHeld(Advance(s, t, ok))
  {
    MoveEffect(s, t, ok);
    hide Advance;
    hide CanAdvance;
    var next := Advance(s, t, ok);
    assert forall u :: u != t ==> next.Pc(u) == s.Pc(u);
  }

  /** A call takes nothing when it begins. */
  lemma BeginEffect(s: State, e: Event)
    requires !e.Move?
    ensures var next := Apply(s, e);
            && next.unlockGate == s.unlockGate && next.dirGates == s.dirGates && next.closing == s.closing
            && next.sessions == s.sessions && next.won == s.won && next.refused == s.refused
            && (!e.Save? ==> next.disk == s.disk)
            && (next.pcs == s.pcs || (!e.Save? && s.Pc(e.t).Idle? && next.pcs == s.pcs[e.t := next.Pc(e.t)]
                && (|| next.Pc(e.t).OpenWaits? || next.Pc(e.t).CreateWaits?
                    || (e.BeginClose? && next.Pc(e.t) == CloseEnters(e.dir)))))
  {
    hide CheckedSave;
  }

  lemma BeginHoldsNothing(s: State, e: Event, u: Tid)
    requires !e.Move?
    ensures var p, q := s.Pc(u), Apply(s, e).Pc(u);
            p == q || (!HoldsUnlock(p) && !HoldsUnlock(q) && !HoldsDir(p) && !HoldsDir(q))
  {
    BeginEffect(s, e);
    hide Apply;
  }

  lemma BeginKeepsUnlockGate(s: State, e: Event)
    requires UnlockGateHeld(s) && !e.Move?
    ensures UnlockGateHeld(Apply(s, e))
  {
    BeginEffect(s, e);
    hide UnlockGateHeld;
    hide Apply;
    var next := Apply(s, e);
    assert forall u :: HoldsUnlock(next.Pc(u)) || HoldsUnlock(s.Pc(u)) ==> next.Pc(u) == s.Pc(u) by {
      forall u { BeginHoldsNothing(s, e, u); }
    }
    SameUnlockHolders(s, next);
  }

  lemma SameUnlockHolders(s: State, next: State)
    requires UnlockGateHeld(s) && next.unlockGate == s.unlockGate
    requires forall u :: HoldsUnlock(next.Pc(u)) || HoldsUnlock(s.Pc(u)) ==> next.Pc(u) == s.Pc(u)
    ensures UnlockGateHeld(next)
  {
    hide HoldsUnlock;
  }

  lemma BeginKeepsDirGates(s: State, e: Event)
    requires DirGatesHeld(s) && !e.Move?
    ensures DirGatesHeld(Apply(s, e))
  {
    BeginEffect(s, e);
    hide DirGatesHeld;
    hide Apply;
    var next := Apply(s, e);
    assert forall u :: HoldsDir(next.Pc(u)) || HoldsDir(s.Pc(u)) ==> next.Pc(u) == s.Pc(u) by {
      forall u { BeginHoldsNothing(s, e, u); }
    }
    SameDirHolders(s, next);
  }

  lemma SameDirHolders(s: State, next: State)
    requires DirGatesHeld(s) && next.dirGates == s.dirGates
    requires forall u :: HoldsDir(next.Pc(u)) || HoldsDir(s.Pc(u)) ==> next.Pc(u) == s.Pc(u)
    ensures DirGatesHeld(next)
  {
  }

  lemma ApplyKeepsLocks(s: State, e: Event)
    requires Locked(s)
    ensures Locked(Apply(s, e))
  {
    hide CanAdvance;
    hide Advance;
    hide UnlockGateHeld;
    hide DirGatesHeld;
    if !e.Move? {
      BeginKeepsUnlockGate(s, e);
      BeginKeepsDirGates(s, e);
    } else if CanAdvance(s, e.t) {
      MoveKeepsUnlockGate(s, e.t, e.ok);
      MoveKeepsDirGates(s, e.t, e.ok);
    }
  }

  // ----- Runs -----

  ghost function Run(start: State, events: seq<Event>): State {
    if events == [] then start else Apply(Run(start, events[..|events| - 1]), events[|events| - 1])
  }

  /** No call in progress, and every vault on disk complete. */
  ghost predicate AtRest(s: State) {
    && s.sessions == map[] && s.closing == {} && s.unlockGate == None && s.dirGates == map[] && s.pcs == map[]
    && s.refused == {} && s.won == multiset(s.disk.Keys)
    && forall d :: d in s.disk ==> Complete(s.disk[d])
  }

  predicate Complete(v: VaultDir) {
    v.config.Some? && v.seeded && v.persisted
  }

  lemma {:induction false} RunKeepsLocks(start: State, events: seq<Event>)
    requires AtRest(start)
    ensures Locked(Run(start, events))
  {
    if events != [] {
      RunKeepsLocks(start, events[..|events| - 1]);
      ApplyKeepsLocks(Run(start, events[..|events| - 1]), events[|events| - 1]);
    }
  }

  /** However many opens and creates run at once, one key derivation is in progress at most. */
  lemma OneKeyDerivation(start: State, events: seq<Event>, t: Tid, u: Tid)
    requires AtRest(start)
    requires InKeyDerivation(Run(start, events).Pc(t)) && InKeyDerivation(Run(start, events).Pc(u))
    ensures t == u
  {
    RunKeepsLocks(start, events);
  }

  /** The thread that a thread waits for, through its directory gate and then the unlock gate. */
  function Blocker(s: State, t: Tid): Tid {
    if CanAdvance(s, t) then t
    else if s.Pc(t).CreateWaits? && s.Pc(t).dir in s.dirGates && CanAdvance(s, s.dirGates[s.Pc(t).dir]) then
      s.dirGates[s.Pc(t).dir]
    else if s.unlockGate.Some? then s.unlockGate.value
    else t
  }

  /** Steps a call still has to take when it runs by itself. */
  function StepsLeft(pc: Place): nat {
    match pc
    case Idle => 0
    case OpenWaits(_) => 6 case OpenChecks(_) => 5 case OpenLoads(_) => 4
    case OpenDerives(_, _) => 3 case OpenInserts(_, _) => 2 case OpenLeaves(_) => 1
    case CreateWaits(_, _) => 8 case CreateMakes(_, _) => 7 case CreateSaves(_, _) => 6 case CreateWaitsUnlock(_) => 5
    case CreateDerives(_) => 4 case CreatePersists(_) => 3 case CreateRollsBack(_) => 2 case CreateLeaves(_) => 1
    case CloseEnters(_) => 6 case CloseTakes(_) => 5 case CloseChecks(_, _) => 4
    case CloseFlushes(_, _) => 3 case ClosePutsBack(_, _) => 2 case CloseLeaves(_, _) => 1
  }

  /** No deadlock: in every reachable state each unfinished call either can move or waits for one
      that can, and that move brings the mover nearer its end and leaves every other thread be. */
  lemma NeverDeadlocked(start: State, events: seq<Event>, t: Tid, ok: bool)
    requires AtRest(start) && Run(start, events).Pc(t) != Idle
    ensures var s := Run(start, events); var b := Blocker(s, t);
            && CanAdvance(s, b)
            && StepsLeft(Advance(s, b, ok).Pc(b)) < StepsLeft(s.Pc(b))
            && forall u :: u != b ==> Advance(s, b, ok).Pc(u) == s.Pc(u)
  {
    RunKeepsLocks(start, events);
    var s := Run(start, events);
    var b := Blocker(s, t);
    BlockerCanMove(s, t);
    MoveEffect(s, b, ok);
    MoveShortens(s, b, ok);
    hide Advance;
    hide StepsLeft;
    hide CanAdvance;
  }

  lemma BlockerCanMove(s: State, t: Tid)
    requires Locked(s) && s.Pc(t) != Idle
    ensures CanAdvance(s, Blocker(s, t))
  {
  }

  lemma OpenShortens(s: State, t: Tid, ok: bool)
    requires CanAdvance(s, t) && Opening(s.Pc(t))
    ensures StepsLeft(AdvanceOpen(s, t, ok).Pc(t)) < StepsLeft(s.Pc(t))
  {
    hide Load;
  }

  lemma CloseShortens(s: State, t: Tid, ok: bool)
    requires CanAdvance(s, t) && Closing(s.Pc(t))
    ensures StepsLeft(AdvanceClose(s, t, ok).Pc(t)) < StepsLeft(s.Pc(t))
  {
  }

  lemma CreateShortens(s: State, t: Tid, ok: bool)
    requires CanAdvance(s, t) && !Opening(s.Pc(t)) && !Closing(s.Pc(t))
    ensures StepsLeft(AdvanceCreate(s, t, ok).Pc(t)) < StepsLeft(s.Pc(t))
  {
    hide Written;
  }

  lemma MoveShortens(s: State, t: Tid, ok: bool)
    requires CanAdvance(s, t)
    ensures StepsLeft(Advance(s, t, ok).Pc(t)) < StepsLeft(s.Pc(t))
  {
    hide AdvanceOpen;
    hide AdvanceClose;
    hide AdvanceCreate;
    hide StepsLeft;
    if Opening(s.Pc(t)) {
      OpenShortens(s, t, ok);
    } else if Closing(s.Pc(t)) {
      CloseShortens(s, t, ok);
    } else {
      CreateShortens(s, t, ok);
    }
  }
}
