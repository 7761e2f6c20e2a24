/** Two schedules that the locks allow and that break what `VaultSafety` proves of orderly runs. */
module VaultSchedules {
  import opened Wrappers
  import opened VaultConfigs
  import opened VaultProtocol
  import opened VaultSafety

  lemma {:induction false} RunAppend(s: State, a: seq<Event>, b: seq<Event>)
    ensures Run(s, a + b) == Run(Run(s, a), b)
  {
    if b == [] {
      assert a + b == a;
    } else {
      assert (a + b)[..|a + b| - 1] == a + b[..|b| - 1];
      RunAppend(s, a, b[..|b| - 1]);
    }
  }

  lemma RunOne(s: State, e: Event, rest: seq<Event>)
    ensures Run(s, [e] + rest) == Run(Apply(s, e), rest)
  {
    hide Apply;
    RunAppend(s, [e], rest);
    assert [e][..0] == [];
    assert Run(s, [e][..0]) == s;
  }

  function Moves(t: Tid, n: nat): seq<Event> {
    if n == 0 then [] else [Move(t, true)] + Moves(t, n - 1)
  }

  lemma RunMove(s: State, t: Tid, n: nat)
    requires CanAdvance(s, t)
    ensures Run(s, Moves(t, n + 1)) == Run(Advance(s, t, true), Moves(t, n))
  {
    hide Advance;
    hide CanAdvance;
    RunOne(s, Move(t, true), Moves(t, n));
  }

  predicate Openable(s: State, d: Dir) {
    && s.unlockGate.None? && d in s.disk && s.disk[d].seeded && d !in s.sessions
    && Load(s.File(d), d).Ok? && Load(s.File(d), d).value.storage != UprivPlain
  }

  function NewSession(s: State, d: Dir): Session
    requires Openable(s, d)
  {
    var c := Load(s.File(d), d).value;
    Session(c.security.Normalized(), c)
  }

  function OpenCall(t: Tid, d: Dir): seq<Event> {
    [BeginOpen(t, d)] + Moves(t, 6)
  }

  function Inserted(s: State, d: Dir): State
    requires Openable(s, d)
  {
    s.(sessions := s.sessions[d := NewSession(s, d)])
  }

  lemma OpenFromInsert(s: State, t: Tid, d: Dir)
    requires Openable(s, d)
    ensures var inserting := s.(unlockGate := Some(t)).At(t, OpenInserts(d, Load(s.File(d), d).value));
            Run(inserting, Moves(t, 2)) == Inserted(s, d).At(t, Idle)
  {
    hide Load;
    hide Run;
    var c := Load(s.File(d), d).value;
    var held := s.(unlockGate := Some(t));
    var inserted := Inserted(s, d).(unlockGate := Some(t));
    RunMove(held.At(t, OpenInserts(d, c)), t, 1);
    assert Advance(held.At(t, OpenInserts(d, c)), t, true) == inserted.At(t, OpenLeaves(d));
    RunMove(inserted.At(t, OpenLeaves(d)), t, 0);
    assert Advance(inserted.At(t, OpenLeaves(d)), t, true) == Inserted(s, d).At(t, Idle);
    RunNothing(Inserted(s, d).At(t, Idle));
  }

  lemma OpenFromLoad(s: State, t: Tid, d: Dir)
    requires Openable(s, d)
    ensures Run(s.(unlockGate := Some(t)).At(t, OpenLoads(d)), Moves(t, 4)) == Inserted(s, d).At(t, Idle)
  {
    hide Load;
    hide Run;
    var c := Load(s.File(d), d).value;
    var held := s.(unlockGate := Some(t));
    assert s.File(d) == held.At(t, OpenLoads(d)).File(d);
    RunMove(held.At(t, OpenLoads(d)), t, 3);
    assert Advance(held.At(t, OpenLoads(d)), t, true) == held.At(t, OpenDerives(d, c));
    RunMove(held.At(t, OpenDerives(d, c)), t, 2);
    assert Advance(held.At(t, OpenDerives(d, c)), t, true) == held.At(t, OpenInserts(d, c));
    OpenFromInsert(s, t, d);
  }

  lemma RunNothing(s: State)
    ensures Run(s, []) == s
  {
  }

  /** An open that nothing disturbs leaves exactly one more session. */
  lemma OpenSucceeds(s: State, t: Tid, d: Dir)
    requires Openable(s, d) && s.Pc(t).Idle?
    ensures Run(s, OpenCall(t, d)) == Inserted(s, d).At(t, Idle)
  {
    hide Load;
    hide Run;
    hide NewSession;
    var held := s.(unlockGate := Some(t));
    RunOne(s, BeginOpen(t, d), Moves(t, 6));
    RunMove(s.At(t, OpenWaits(d)), t, 5);
    assert Advance(s.At(t, OpenWaits(d)), t, true) == held.At(t, OpenChecks(d));
    RunMove(held.At(t, OpenChecks(d)), t, 4);
    assert Advance(held.At(t, OpenChecks(d)), t, true) == held.At(t, OpenLoads(d));
    OpenFromLoad(s, t, d);
  }

  // ----- Two closes of one vault -----

  /** The closing mark is a set entry, not a count: a second close finds no session, and leaving it
      clears the mark of the first, which still has to persist. */
  lemma SecondCloseOpensAGap(s: State, t: Tid, u: Tid, d: Dir)
    requires t != u && s.Pc(t).Idle? && s.Pc(u).Idle? && d in s.disk
    requires d in s.sessions && s.sessions == map[d := s.sessions[d]] && s.closing == {} && s.unlockGate.None?
    ensures var first, second := [BeginClose(t, d)] + Moves(t, 2), [BeginClose(u, d)] + Moves(u, 3);
            var after := Run(s, first + second);
            Active(after, d) && !BlocksRootSwitch(after) && !BlocksQuiet(after, d)
  {
    hide Run;
    var session := s.sessions[d];
    var taken := TakenBy(s, t, d, session);
    FirstClose(s, t, d);
    SecondClose(taken, u, d);
    RunAppend(s, [BeginClose(t, d)] + Moves(t, 2), [BeginClose(u, d)] + Moves(u, 3));
    var after := taken.(closing := {}).At(u, Idle);
    assert ClosesWith(after.Pc(t), d);
    assert s.sessions - {d} == map[];
  }

  /** The schedule from a program at rest: an open, then two overlapping closes of the vault. */
  lemma OverlappingClosesOpenAGap(start: State, t: Tid, u: Tid, d: Dir)
    requires AtRest(start) && t != u && Openable(start, d)
    ensures var closes := ([BeginClose(t, d)] + Moves(t, 2)) + ([BeginClose(u, d)] + Moves(u, 3));
            var after := Run(start, OpenCall(t, d) + closes);
            Active(after, d) && !BlocksRootSwitch(after) && !BlocksQuiet(after, d)
  {
    hide Run;
    hide Load;
    hide NewSession;
    var closes := ([BeginClose(t, d)] + Moves(t, 2)) + ([BeginClose(u, d)] + Moves(u, 3));
    OpenSucceeds(start, t, d);
    RunAppend(start, OpenCall(t, d), closes);
    var s := Inserted(start, d).At(t, Idle);
    assert s.sessions == map[d := s.sessions[d]];
    SecondCloseOpensAGap(s, t, u, d);
    hide Active;
    hide BlocksRootSwitch;
    hide BlocksQuiet;
  }

  function TakenBy(s: State, t: Tid, d: Dir, session: Session): State {
    s.(sessions := s.sessions - {d}, closing := s.closing + {d}).At(t, CloseChecks(d, session))
  }

  /** A close begins by setting the mark. */
  lemma CloseBegins(s: State, t: Tid, d: Dir, n: nat)
    requires s.Pc(t).Idle? && d in s.disk
    ensures Run(s, [BeginClose(t, d)] + Moves(t, n + 1))
            == Run(s.(closing := s.closing + {d}).At(t, CloseTakes(d)), Moves(t, n))
  {
    hide Run;
    RunOne(s, BeginClose(t, d), Moves(t, n + 1));
    RunMove(s.At(t, CloseEnters(d)), t, n);
    assert Advance(s.At(t, CloseEnters(d)), t, true) == s.(closing := s.closing + {d}).At(t, CloseTakes(d));
  }

  lemma FirstClose(s: State, t: Tid, d: Dir)
    requires s.Pc(t).Idle? && d in s.disk && d in s.sessions
    ensures Run(s, [BeginClose(t, d)] + Moves(t, 2)) == TakenBy(s, t, d, s.sessions[d])
  {
    hide Run;
    var marked := s.(closing := s.closing + {d});
    CloseBegins(s, t, d, 1);
    RunMove(marked.At(t, CloseTakes(d)), t, 0);
    assert Advance(marked.At(t, CloseTakes(d)), t, true) == TakenBy(s, t, d, s.sessions[d]);
    RunNothing(TakenBy(s, t, d, s.sessions[d]));
  }

  lemma MissedTake(s: State, u: Tid, d: Dir)
    requires s.Pc(u) == CloseTakes(d) && d !in s.sessions
    ensures Run(s, Moves(u, 2)) == s.(closing := s.closing - {d}).At(u, Idle)
  {
    hide Run;
    RunMove(s, u, 1);
    assert Advance(s, u, true) == s.At(u, CloseLeaves(d, None));
    RunMove(s.At(u, CloseLeaves(d, None)), u, 0);
    assert Advance(s.At(u, CloseLeaves(d, None)), u, true) == s.(closing := s.closing - {d}).At(u, Idle);
    RunNothing(s.(closing := s.closing - {d}).At(u, Idle));
  }

  lemma SecondClose(s: State, u: Tid, d: Dir)
    requires s.Pc(u).Idle? && d in s.disk && d !in s.sessions
    ensures Run(s, [BeginClose(u, d)] + Moves(u, 3)) == s.(closing := s.closing - {d}).At(u, Idle)
  {
    hide Run;
    var marked := s.(closing := s.closing + {d});
    CloseBegins(s, u, d, 2);
    MissedTake(marked.At(u, CloseTakes(d)), u, d);
    assert marked.closing - {d} == s.closing - {d};
    assert marked.At(u, CloseTakes(d)).(closing := marked.closing - {d}).At(u, Idle)
      == s.(closing := s.closing - {d}).At(u, Idle);
  }

  // ----- An open between the seeding and the failure of a create -----

  /** Once a create has seeded its store the unlock gate is free, and an open may succeed; if the
      create then fails to write `persistence.json` it removes the vault under the session. */
  lemma SessionOutlivesItsVault(s: State, t: Tid, u: Tid, d: Dir)
    requires t != u && s.Pc(t) == CreatePersists(d) && s.Pc(u).Idle? && Openable(s, d)
    ensures var after := Run(s, OpenCall(u, d) + [Move(t, false), Move(t, true)]);
            d in after.sessions && d !in after.disk && !Fits(after.File(d), d, after.sessions[d])
  {
    hide Load;
    hide Run;
    hide NewSession;
    var unlocked := Inserted(s, d).At(u, Idle);
    OpenSucceeds(s, u, d);
    RunAppend(s, OpenCall(u, d), [Move(t, false), Move(t, true)]);
    FailedPersist(unlocked, t, d);
    NothingToLoad(None, d, unlocked.sessions[d]);
  }

  lemma RolledBack(s: State, t: Tid, d: Dir)
    requires s.Pc(t) == CreateRollsBack(d)
    ensures Run(s, [Move(t, true)]) == s.(disk := s.disk - {d}).At(t, CreateLeaves(d))
  {
    hide Run;
    assert [Move(t, true)] + [] == [Move(t, true)];
    RunOne(s, Move(t, true), []);
    RunNothing(s.(disk := s.disk - {d}).At(t, CreateLeaves(d)));
  }

  lemma FailedPersist(s: State, t: Tid, d: Dir)
    requires s.Pc(t) == CreatePersists(d)
    ensures Run(s, [Move(t, false), Move(t, true)]) == s.(disk := s.disk - {d}).At(t, CreateLeaves(d))
  {
    hide Run;
    assert [Move(t, false)] + [Move(t, true)] == [Move(t, false), Move(t, true)];
    RunOne(s, Move(t, false), [Move(t, true)]);
    assert Apply(s, Move(t, false)) == s.At(t, CreateRollsBack(d));
    hide Apply;
    RolledBack(s.At(t, CreateRollsBack(d)), t, d);
    assert s.At(t, CreateRollsBack(d)).(disk := s.disk - {d}).At(t, CreateLeaves(d))
      == s.(disk := s.disk - {d}).At(t, CreateLeaves(d));
  }

  lemma NothingToLoad(file: Option<Config>, d: Dir, session: Session)
    requires file.None?
    ensures !Fits(file, d, session)
  {
  }

  /** Such a state is reached: a create, five steps in, of a vault with a usable configuration. */
  lemma CreateReachesIt(start: State, t: Tid, d: Dir, c: Config)
    requires AtRest(start) && d !in start.disk && c.storage != UprivPlain
    requires Load(Some(Written(c.(id := d))), d).Ok?
    ensures var s := Run(start, [BeginCreate(t, d, c)] + Moves(t, 5));
            s.Pc(t) == CreatePersists(d) && Openable(s, d) && forall u :: u != t ==> s.Pc(u).Idle?
  {
    hide Run;
    hide Moves;
    hide Written;
    hide Advance;
    hide CanAdvance;
    var named := c.(id := d);
    WrittenStorage(named, d);
    hide Load;
    CreateBegins(start, t, d, c);
    var held := start.(dirGates := start.dirGates[d := t]);
    assert d !in start.dirGates && start.unlockGate.None? && start.pcs == map[];
    hide AtRest;
    CreateFromWait(start, t, d, named);
    CreateFromMake(held, t, d, named);
    ReadyForOpen(held.(disk := start.disk[d := VaultDir(Some(Written(named)), true, false)]), t, d);
  }

  /** The schedule from a program at rest: a create, an open once the store is seeded, and the
      create's failure to write `persistence.json`. */
  lemma FailedCreateOrphansASession(start: State, t: Tid, u: Tid, d: Dir, c: Config)
    requires AtRest(start) && t != u && d !in start.disk && c.storage != UprivPlain
    requires Load(Some(Written(c.(id := d))), d).Ok?
    ensures var create := [BeginCreate(t, d, c)] + Moves(t, 5);
            var after := Run(start, create + (OpenCall(u, d) + [Move(t, false), Move(t, true)]));
            d in after.sessions && d !in after.disk && !Fits(after.File(d), d, after.sessions[d])
  {
    CreateReachesIt(start, t, d, c);
    hide Run;
    hide Load;
    hide Written;
    var create := [BeginCreate(t, d, c)] + Moves(t, 5);
    var rest := OpenCall(u, d) + [Move(t, false), Move(t, true)];
    RunAppend(start, create, rest);
    hide Openable;
    SessionOutlivesItsVault(Run(start, create), t, u, d);
  }

  lemma CreateBegins(s: State, t: Tid, d: Dir, c: Config)
    requires s.Pc(t).Idle? && c.storage != UprivPlain
    ensures Run(s, [BeginCreate(t, d, c)] + Moves(t, 5)) == Run(s.At(t, CreateWaits(d, c.(id := d))), Moves(t, 5))
  {
    hide Run;
    RunOne(s, BeginCreate(t, d, c), Moves(t, 5));
  }

  lemma ReadyForOpen(s: State, t: Tid, d: Dir)
    requires Openable(s, d) && s.pcs == map[]
    ensures var ready := s.At(t, CreatePersists(d));
            ready.Pc(t) == CreatePersists(d) && Openable(ready, d) && forall u :: u != t ==> ready.Pc(u).Idle?
  {
    hide Load;
  }

  lemma WrittenStorage(c: Config, d: Dir)
    requires Load(Some(Written(c)), d).Ok?
    ensures Load(Some(Written(c)), d).value.storage == c.storage
  {
  }

  lemma CreateFromWait(s: State, t: Tid, d: Dir, c: Config)
    requires d !in s.dirGates
    ensures Run(s.At(t, CreateWaits(d, c)), Moves(t, 5))
            == Run(s.(dirGates := s.dirGates[d := t]).At(t, CreateMakes(d, c)), Moves(t, 4))
  {
    hide Run;
    RunMove(s.At(t, CreateWaits(d, c)), t, 4);
    assert Advance(s.At(t, CreateWaits(d, c)), t, true) == s.(dirGates := s.dirGates[d := t]).At(t, CreateMakes(d, c));
  }

  lemma CreateFromMake(s: State, t: Tid, d: Dir, c: Config)
    requires d !in s.disk && s.unlockGate.None?
    ensures Run(s.At(t, CreateMakes(d, c)), Moves(t, 4))
            == s.(disk := s.disk[d := VaultDir(Some(Written(c)), true, false)]).At(t, CreatePersists(d))
  {
    hide Run;
    hide Written;
    hide Advance;
    hide CanAdvance;
    var made := s.(disk := s.disk[d := VaultDir(None, false, false)]);
    var saved := s.(disk := s.disk[d := VaultDir(Some(Written(c)), false, false)]);
    var held := saved.(unlockGate := Some(t));
    CreateMakeStep(s, t, d, c);
    CreateFromSave(made, t, d, c);
    assert made.disk[d := VaultDir(Some(Written(c)), false, false)] == saved.disk;
    CreateGateStep(saved, t, d);
    CreateSeedStep(held, t, d);
    assert saved.disk[d := VaultDir(Some(Written(c)), true, false)]
      == s.disk[d := VaultDir(Some(Written(c)), true, false)];
  }

  lemma CreateMakeStep(s: State, t: Tid, d: Dir, c: Config)
    requires d !in s.disk
    ensures Run(s.At(t, CreateMakes(d, c)), Moves(t, 4))
            == Run(s.(disk := s.disk[d := VaultDir(None, false, false)]).At(t, CreateSaves(d, c)), Moves(t, 3))
  {
    hide Run;
    RunMove(s.At(t, CreateMakes(d, c)), t, 3);
    assert Advance(s.At(t, CreateMakes(d, c)), t, true)
      == s.(disk := s.disk[d := VaultDir(None, false, false)]).At(t, CreateSaves(d, c));
  }

  lemma CreateFromSave(s: State, t: Tid, d: Dir, c: Config)
    requires d in s.disk && s.disk[d] == VaultDir(None, false, false)
    ensures Run(s.At(t, CreateSaves(d, c)), Moves(t, 3))
            == Run(s.(disk := s.disk[d := VaultDir(Some(Written(c)), false, false)]).At(t, CreateWaitsUnlock(d)),
                   Moves(t, 2))
  {
    hide Run;
    hide Written;
    RunMove(s.At(t, CreateSaves(d, c)), t, 2);
    assert Advance(s.At(t, CreateSaves(d, c)), t, true)
        == s.(disk := s.disk[d := VaultDir(Some(Written(c)), false, false)]).At(t, CreateWaitsUnlock(d));
  }

  lemma CreateGateStep(s: State, t: Tid, d: Dir)
    requires s.unlockGate.None?
    ensures Run(s.At(t, CreateWaitsUnlock(d)), Moves(t, 2))
            == Run(s.(unlockGate := Some(t)).At(t, CreateDerives(d)), Moves(t, 1))
  {
    hide Run;
    RunMove(s.At(t, CreateWaitsUnlock(d)), t, 1);
    assert Advance(s.At(t, CreateWaitsUnlock(d)), t, true) == s.(unlockGate := Some(t)).At(t, CreateDerives(d));
  }

  lemma CreateSeedStep(s: State, t: Tid, d: Dir)
    requires d in s.disk
    ensures Run(s.At(t, CreateDerives(d)), Moves(t, 1))
            == s.(unlockGate := None, disk := s.disk[d := s.disk[d].(seeded := true)]).At(t, CreatePersists(d))
  {
    hide Run;
    RunMove(s.At(t, CreateDerives(d)), t, 0);
    var seeded := s.(unlockGate := None, disk := s.disk[d := s.disk[d].(seeded := true)]).At(t, CreatePersists(d));
    assert Advance(s.At(t, CreateDerives(d)), t, true) == seeded;
    RunNothing(seeded);
  }
}
