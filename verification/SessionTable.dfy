/** The session map and the closing set that the lock operations of `VaultProtocol` act on. */
module SessionTable {
  import opened Wrappers
  import opened VaultConfigs
  import P = VaultProtocol

  datatype CloseError = VaultNotFound | VaultNotOpen | WrongPassword | NotPersisted

  class Table {
    var sessions: map<P.Dir, P.Session>
    var closing: set<P.Dir>

    constructor ()
      ensures sessions == map[] && closing == {}
    {
      sessions, closing := map[], {};
    }

    ghost predicate Shows(s: P.State)
      reads this
    {
      sessions == s.sessions && closing == s.closing
    }

    method InsertSession(d: P.Dir, session: P.Session, ghost s: P.State) returns (ok: bool)
      requires Shows(s)
      modifies this`sessions
      ensures Shows(P.InsertSession(s, d, session))
      ensures ok <==> d !in old(sessions)
    {
      ok := d !in sessions;
      if ok {
        sessions := sessions[d := session];
      }
    }

    method TakeSession(d: P.Dir) returns (taken: Option<P.Session>)
      modifies this`sessions
      ensures sessions == old(sessions) - {d}
      ensures taken == if d in old(sessions) then Some(old(sessions)[d]) else None
    {
      taken := None;
      if d in sessions {
        taken := Some(sessions[d]);
        sessions := sessions - {d};
      }
    }

    /** The three questions the edit policy and the root switch ask; the gate is tried, not taken. */
    method BusyFlags(d: P.Dir, s: P.State) returns (rootSwitchBlocked: bool, quietBlocked: bool)
      requires Shows(s)
      ensures rootSwitchBlocked == P.BlocksRootSwitch(s)
      ensures quietBlocked == P.BlocksQuiet(s, d)
    {
      rootSwitchBlocked := |sessions| > 0 || |closing| > 0 || s.unlockGate.Some?;
      quietBlocked := d in sessions || d in closing || s.unlockGate.Some?;
      assert |sessions| > 0 <==> sessions != map[];
    }

    /** `close_vault` that nothing disturbs: the vault is closed exactly when a session was there,
        the prompt was answered and the index persisted, and otherwise the table is as it was. */
    method CloseVault(d: P.Dir, present: bool, passwordPresent: bool, persists: bool)
      returns (r: Result<(), CloseError>)
      modifies this
      ensures r.Ok? <==> && present && persists && d in old(sessions)
                         && (old(sessions)[d].mode == AlwaysPrompt ==> passwordPresent)
      ensures sessions == if r.Ok? then old(sessions) - {d} else old(sessions)
      ensures closing == if present then old(closing) - {d} else old(closing)
      ensures r == Err(NotPersisted) ==> !persists
    {
      if !present {
        return Err(VaultNotFound);
      }
      closing := closing + {d};
      ghost var before := sessions;
      var taken := TakeSession(d);
      r := Err(VaultNotOpen);
      if taken.Some? {
        if taken.value.mode == AlwaysPrompt && !passwordPresent {
          sessions := sessions[d := taken.value];
          r := Err(WrongPassword);
        } else if !persists {
          sessions := sessions[d := taken.value];
          r := Err(NotPersisted);
        } else {
          r := Ok(());
        }
        assert (before - {d})[d := before[d]] == before;
      }
      closing := closing - {d};
    }
  }
}
