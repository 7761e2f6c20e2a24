/** Pruning: what exactly it removes, and exactly when it removes the newest file. */
module LogPruning {
  import opened Wrappers
  import opened LogDirectory
  import opened LogFormat
  import opened LogHistory
  import opened LogSteps
  import opened Sequences

  /** What oldest-first removal of counted files can leave of `f`. */
  ghost predicate OldestFirst(g: Files, f: Files, skipped: set<LogName>) {
    && g.Keys <= f.Keys && (forall n :: n in g ==> g[n] == f[n])
    && (forall n :: n in f && n !in g ==>
          && !n.current && n !in skipped
          && forall m :: m in g && !m.current && m !in skipped ==> n.number < m.number)
  }

  ghost predicate CountedLinesAtMost(h: Files, skipped: set<LogName>, keep: nat) {
    CountedLines(h, skipped) <= keep
  }

  /** The largest oldest-first remainder of `f` within the budget. */
  ghost predicate LargestWithin(g: Files, f: Files, skipped: set<LogName>, keep: nat) {
    && OldestFirst(g, f, skipped) && CountedLinesAtMost(g, skipped, keep)
    && forall h :: OldestFirst(h, f, skipped) && CountedLinesAtMost(h, skipped, keep) ==> h.Keys <= g.Keys
  }

  lemma PruneOneOldest(f: Files, skipped: set<LogName>, keep: nat)
    requires Distinct(f) && CountedLines(f, skipped) > keep
    ensures Counted(f, skipped) != map[] && OldestFirst(f - {OldestCounted(f, skipped)}, f, skipped)
    ensures |f - {OldestCounted(f, skipped)}| == |f| - 1
  {
    SomethingIsCounted(f, skipped, keep);
    hide CountedLines;
    var o := OldestCounted(f, skipped);
    assert (f - {o}).Keys == f.Keys - {o};
  }

  lemma WithOldestNothingIsMissing(f: Files, skipped: set<LogName>, h: Files)
    requires Distinct(f) && Counted(f, skipped) != map[] && OldestFirst(h, f, skipped)
    requires OldestCounted(f, skipped) in h
    ensures h == f
  {
    assert forall n :: n in f ==> n in h;
    assert h.Keys == f.Keys;
  }

  lemma OtherRemaindersMissIt(f: Files, skipped: set<LogName>, keep: nat, h: Files)
    requires Distinct(f) && CountedLines(f, skipped) > keep
    requires OldestFirst(h, f, skipped) && CountedLinesAtMost(h, skipped, keep)
    ensures Counted(f, skipped) != map[] && OldestFirst(h, f - {OldestCounted(f, skipped)}, skipped)
  {
    SomethingIsCounted(f, skipped, keep);
    hide CountedLines;
    if OldestCounted(f, skipped) in h {
      WithOldestNothingIsMissing(f, skipped, h);
    }
  }

  lemma OldestFirstTransitive(h: Files, g: Files, f: Files, skipped: set<LogName>)
    requires OldestFirst(h, g, skipped) && OldestFirst(g, f, skipped)
    ensures OldestFirst(h, f, skipped)
  {
  }

  lemma LargestOfOneLess(last: Files, f: Files, skipped: set<LogName>, keep: nat)
    requires Distinct(f) && CountedLines(f, skipped) > keep && Counted(f, skipped) != map[]
    requires LargestWithin(last, f - {OldestCounted(f, skipped)}, skipped, keep)
    ensures LargestWithin(last, f, skipped, keep)
  {
    var g := f - {OldestCounted(f, skipped)};
    PruneOneOldest(f, skipped, keep);
    OldestFirstTransitive(last, g, f, skipped);
    hide OldestFirst;
    hide CountedLinesAtMost;
    forall h | OldestFirst(h, f, skipped) && CountedLinesAtMost(h, skipped, keep) ensures h.Keys <= last.Keys {
      OtherRemaindersMissIt(f, skipped, keep, h);
    }
  }

  lemma NothingToPrune(f: Files, skipped: set<LogName>, keep: nat)
    requires CountedLines(f, skipped) <= keep
    ensures LargestWithin(f, f, skipped, keep)
  {
  }

  /** With every removal succeeding, pruning deletes the fewest counted files, oldest first, that leave
      at most `keep` lines in the counted ones: the result is within the budget, and every other
      oldest-first remainder within the budget is contained in it. */
  lemma {:induction false} PruneIsExact(f: Files, skipped: set<LogName>, keep: nat, removals: nat)
    requires Distinct(f) && removals >= |f|
    ensures LargestWithin(Pruned(f, skipped, keep, removals), f, skipped, keep)
    decreases removals
  {
    hide LargestWithin;
    hide Counted;
    hide OldestFirst;
    if CountedLines(f, skipped) <= keep {
      NothingToPrune(f, skipped, keep);
    } else {
      PruneOneOldest(f, skipped, keep);
      var g := f - {OldestCounted(f, skipped)};
      PruneIsExact(g, skipped, keep, removals - 1);
      LargestOfOneLess(Pruned(g, skipped, keep, removals - 1), f, skipped, keep);
    }
  }

  // ----- When the newest file goes -----

  lemma {:induction false} PartOfTotal(f: Files, n: LogName)
    requires n in f
    ensures |f[n]| <= TotalLines(f)
    decreases |f|
  {
    if n != Oldest(f) {
      PartOfTotal(f - {Oldest(f)}, n);
    }
  }

  lemma SizeWithout(f: Files, n: LogName)
    requires n in f
    ensures |f - {n}| == |f| - 1
  {
    assert (f - {n}).Keys == f.Keys - {n};
  }

  lemma TotalOfOne(f: Files, n: LogName)
    requires n in f && |f| == 1
    ensures TotalLines(f) == |f[n]| && f - {n} == map[] && Oldest(f) == n
  {
    SizeWithout(f, n);
    assert f - {n} == map[];
    assert Oldest(f) == n;
  }

  lemma CountedWithout(f: Files, skipped: set<LogName>, n: LogName)
    requires n in Counted(f, skipped)
    ensures Counted(f - {n}, skipped) == Counted(f, skipped) - {n}
    ensures |Counted(f - {n}, skipped)| == |Counted(f, skipped)| - 1
  {
    SizeWithout(Counted(f, skipped), n);
  }

  ghost predicate NewestOf(f: Files, newest: LogName) {
    !HasCurrent(f) && newest in f && forall m :: m in f && m != newest ==> m.number < newest.number
  }

  lemma NotTheOnlyOne(f: Files, skipped: set<LogName>, newest: LogName)
    requires NewestOf(f, newest) && newest !in skipped && |Counted(f, skipped)| > 1
    ensures OldestCounted(f, skipped) != newest
  {
    var c := Counted(f, skipped);
    SizeWithout(c, newest);
    assert c - {newest} != map[];
    var m :| m in c - {newest};
  }

  lemma TheOnlyOne(f: Files, skipped: set<LogName>, newest: LogName)
    requires NewestOf(f, newest) && newest !in skipped && |Counted(f, skipped)| == 1
    ensures CountedLines(f, skipped) == |f[newest]| && OldestCounted(f, skipped) == newest
    ensures Counted(f - {newest}, skipped) == map[]
  {
    TotalOfOne(Counted(f, skipped), newest);
    CountedWithout(f, skipped, newest);
  }

  lemma NothingCounted(f: Files, skipped: set<LogName>, keep: nat, removals: nat)
    requires Counted(f, skipped) == map[]
    ensures Pruned(f, skipped, keep, removals) == f && PruneOps(f, skipped, keep, removals) == []
  {
  }

  /** Pruning removes the newest file exactly when it was counted, holds more lines than are kept all by
      itself, and every removal succeeds; then everything counted goes. */
  lemma {:induction false} PrunesNewestExactly(f: Files, skipped: set<LogName>, newest: LogName, keep: nat,
                                               removals: nat)
    requires NewestOf(f, newest)
    ensures newest !in Pruned(f, skipped, keep, removals)
       <==> newest !in skipped && |f[newest]| > keep && removals >= |Counted(f, skipped)|
    ensures |PruneOps(f, skipped, keep, removals)| <= |Counted(f, skipped)|
    ensures newest !in skipped ==>
              (newest !in Pruned(f, skipped, keep, removals)
               <==> |PruneOps(f, skipped, keep, removals)| == |Counted(f, skipped)|)
    decreases removals
  {
    var c := Counted(f, skipped);
    if newest !in skipped {
      PartOfTotal(c, newest);
    }
    if CountedLines(f, skipped) > keep && removals > 0 {
      SomethingIsCounted(f, skipped, keep);
      var o := OldestCounted(f, skipped);
      CountedWithout(f, skipped, o);
      if newest !in skipped && |c| == 1 {
        TheOnlyOne(f, skipped, newest);
        NothingCounted(f - {newest}, skipped, keep, removals - 1);
      } else {
        if newest !in skipped {
          NotTheOnlyOne(f, skipped, newest);
        }
        hide CountedLines;
        hide Counted;
        PrunesNewestExactly(f - {o}, skipped, newest, keep, removals - 1);
      }
    }
  }

  /** Between archiving and the next file, the newest file is gone when its archive is. */
  lemma GoneIsMissing(p: Past, n: LogName)
    requires Between(p, n)
    ensures NewestGone(p.made) <==> ArchiveOf(n) !in p.state.files
    ensures !NewestGone(p.made) ==> NewestOf(p.state.files, ArchiveOf(n))
  {
    var f, h := p.state.files, p.made;
    if ArchiveOf(n) in f {
      NewestArchiveIsThere(p, n);
    }
    if !NewestGone(h) {
      var m := FormOf(f, h, |h| - 1);
      assert m == ArchiveOf(n);
      FrontHoldsWithout(f, h, m);
    }
    hide FilesHold;
  }

  lemma AfterFirst(q: Past, ops: seq<Op>, i: nat)
    requires 0 < i <= |ops|
    ensures After(q, ops[..i]) == After(Then(q, ops[0]), ops[1..][..i - 1])
  {
    hide After;
    hide Then;
    FirstOfPrefix(ops, i);
    AfterBoth(q, [ops[0]], ops[1..][..i - 1]);
    AfterOne(q, ops[0]);
  }

  lemma PruneUnfolds(f: Files, skipped: set<LogName>, keep: nat, removals: nat)
    requires CountedLines(f, skipped) > keep && removals > 0
    ensures Counted(f, skipped) != map[]
    ensures var o := OldestCounted(f, skipped); var ops := PruneOps(f, skipped, keep, removals);
            && ops != [] && ops[0] == Remove(o, skipped)
            && ops[1..] == PruneOps(f - {o}, skipped, keep, removals - 1)
  {
    SomethingIsCounted(f, skipped, keep);
  }

  /** In a prune the newest file is gone exactly after as many removals as files were counted, itself
      among them. */
  lemma {:induction false} GoneWhilePruning(q: Past, n: LogName, skipped: set<LogName>, keep: nat, removals: nat,
                                            i: nat)
    requires Between(q, n) && keep > 0 && !NewestGone(q.made)
    requires i <= |PruneOps(q.state.files, skipped, keep, removals)|
    ensures NewestGone(After(q, PruneOps(q.state.files, skipped, keep, removals)[..i]).made)
       <==> ArchiveOf(n) !in skipped && i == |Counted(q.state.files, skipped)|
    decreases removals
  {
    hide Between;
    hide After;
    hide Then;
    hide PruneOps;
    hide CountedLines;
    hide Counted;
    hide NewestGone;
    var f := q.state.files;
    var ops := PruneOps(f, skipped, keep, removals);
    NotGoneAtFirst(q, n, skipped);
    if i == 0 {
      assert ops[..0] == [];
    } else {
      OnlyOverBudget(f, skipped, keep, removals);
      AfterFirst(q, ops, i);
      FirstRemoval(q, n, skipped, keep, removals);
      FirstIsGone(q, n, skipped, keep, removals);
      var q' := Then(q, ops[0]);
      if NewestGone(q'.made) {
        NothingIsLawful(q', 0);
        assert ops[1..][..0] == [];
      } else {
        GoneWhilePruning(q', n, skipped, keep, removals - 1, i - 1);
      }
    }
  }

  lemma NotGoneAtFirst(q: Past, n: LogName, skipped: set<LogName>)
    requires Between(q, n) && !NewestGone(q.made)
    ensures After(q, []) == q && (ArchiveOf(n) !in skipped ==> |Counted(q.state.files, skipped)| > 0)
  {
    GoneIsMissing(q, n);
    assert ArchiveOf(n) !in skipped ==> ArchiveOf(n) in Counted(q.state.files, skipped);
  }

  lemma OnlyOverBudget(f: Files, skipped: set<LogName>, keep: nat, removals: nat)
    requires PruneOps(f, skipped, keep, removals) != []
    ensures CountedLines(f, skipped) > keep && removals > 0
  {
  }

  lemma FirstRemoval(q: Past, n: LogName, skipped: set<LogName>, keep: nat, removals: nat)
    requires Between(q, n) && keep > 0
    requires CountedLines(q.state.files, skipped) > keep && removals > 0
    ensures var f := q.state.files; var ops := PruneOps(f, skipped, keep, removals);
            && Counted(f, skipped) != map[] && ops != [] && ops[0] == Remove(OldestCounted(f, skipped), skipped)
            && var q' := Then(q, ops[0]);
            && Between(q', n) && q'.state.files == f - {OldestCounted(f, skipped)}
            && |Counted(q'.state.files, skipped)| == |Counted(f, skipped)| - 1
            && ops[1..] == PruneOps(q'.state.files, skipped, keep, removals - 1)
  {
    hide *;
    var f := q.state.files;
    PruneUnfolds(f, skipped, keep, removals);
    var o := OldestCounted(f, skipped);
    RemovalIsBetween(q, n, o, skipped, keep);
    OldestIsCounted(f, skipped);
    CountedWithout(f, skipped, o);
  }

  /** The first removal of a prune takes the newest file only if that is the only one counted, and then
      it is the last removal. */
  lemma FirstIsGone(q: Past, n: LogName, skipped: set<LogName>, keep: nat, removals: nat)
    requires Between(q, n) && keep > 0 && !NewestGone(q.made)
    requires CountedLines(q.state.files, skipped) > keep && removals > 0
    ensures var f := q.state.files; var ops := PruneOps(f, skipped, keep, removals);
            ops != [] && (NewestGone(Then(q, ops[0]).made) ==>
                            ArchiveOf(n) !in skipped && |Counted(f, skipped)| == 1 && |ops| == 1)
  {
    hide *;
    var f := q.state.files;
    FirstRemoval(q, n, skipped, keep, removals);
    var o := OldestCounted(f, skipped);
    if NewestGone(Then(q, Remove(o, skipped)).made) {
      NewestGoesLast(q, n, o, skipped);
      NothingCounted(f - {o}, skipped, keep, removals - 1);
    }
  }

  lemma OldestIsCounted(f: Files, skipped: set<LogName>)
    requires Counted(f, skipped) != map[]
    ensures OldestCounted(f, skipped) in Counted(f, skipped)
  {
  }

  lemma NewestGoesLast(q: Past, n: LogName, o: LogName, skipped: set<LogName>)
    requires Between(q, n) && !NewestGone(q.made)
    requires Counted(q.state.files, skipped) != map[] && o == OldestCounted(q.state.files, skipped)
    requires var q' := Then(q, Remove(o, skipped));
             Between(q', n) && q'.state.files == q.state.files - {o} && NewestGone(q'.made)
    ensures o == ArchiveOf(n) && o !in skipped && |Counted(q.state.files, skipped)| == 1
    ensures Counted(q.state.files - {o}, skipped) == map[]
  {
    var f := q.state.files;
    OldestIsCounted(f, skipped);
    GoneIsMissing(q, n);
    GoneIsMissing(Then(q, Remove(o, skipped)), n);
    hide Between;
    hide Then;
    hide NewestGone;
    assert ArchiveOf(n) in f && ArchiveOf(n) !in f - {o};
    if |Counted(f, skipped)| > 1 {
      NotTheOnlyOne(f, skipped, o);
    }
    SizeWithout(Counted(f, skipped), o);
    CountedWithout(f, skipped, o);
  }

  lemma RemovalIsBetween(q: Past, n: LogName, o: LogName, skipped: set<LogName>, keep: nat)
    requires Between(q, n) && keep > 0 && CountedLines(q.state.files, skipped) > keep
    requires Counted(q.state.files, skipped) != map[] && o == OldestCounted(q.state.files, skipped)
    ensures var q' := Then(q, Remove(o, skipped)); Between(q', n) && q'.state.files == q.state.files - {o}
  {
    hide Holds;
    hide CountedLines;
    hide Counted;
    hide MaxNumber;
    var op := Remove(o, skipped);
    RemovalIsAllowed(q, o, skipped, keep);
    OpHolds(q, op, keep);
    hide Allowed;
  }

  lemma RemovalIsAllowed(q: Past, o: LogName, skipped: set<LogName>, keep: nat)
    requires q.state.active.None? && !HasCurrent(q.state.files) && keep > 0
    requires CountedLines(q.state.files, skipped) > keep
    requires Counted(q.state.files, skipped) != map[] && o == OldestCounted(q.state.files, skipped)
    ensures Allowed(q, Remove(o, skipped), keep)
  {
    hide CountedLines;
    hide Counted;
    hide MaxNumber;
  }

  // ----- Calls -----

  ghost predicate NoRemovals(ops: seq<Op>) {
    forall i :: 0 <= i < |ops| ==> !ops[i].Remove?
  }

  lemma OpLeavesNewest(h: History, op: Op)
    requires !op.Remove? && (op.Create? || !NewestGone(h))
    ensures !NewestGone(Record(h, op))
  {
  }

  lemma {:induction false} WithoutRemovals(p: Past, ops: seq<Op>, j: nat)
    requires NoRemovals(ops) && j <= |ops|
    requires !NewestGone(p.made) || (j > 0 && ops[0].Create?)
    ensures !NewestGone(After(p, ops[..j]).made)
  {
    if j == 0 {
    } else {
      assert ops[..j][..j - 1] == ops[..j - 1];
      if j > 1 || !NewestGone(p.made) {
        WithoutRemovals(p, ops, j - 1);
      }
      OpLeavesNewest(After(p, ops[..j - 1]).made, ops[j - 1]);
    }
    hide Record;
  }

  /** Of the removals `prune` exactly the `total`-th takes the newest file, if it is `counted`. */
  ghost predicate GoesAfter(q: Past, prune: seq<Op>, counted: bool, total: nat) {
    && |prune| <= total && (counted ==> total > 0)
    && forall i :: 0 <= i <= |prune| ==> (NewestGone(After(q, prune[..i]).made) <==> counted && i == total)
  }

  lemma PruneGoes(q: Past, n: LogName, skipped: set<LogName>, keep: nat, removals: nat)
    requires Between(q, n) && keep > 0 && !NewestGone(q.made)
    ensures GoesAfter(q, PruneOps(q.state.files, skipped, keep, removals), ArchiveOf(n) !in skipped,
                      |Counted(q.state.files, skipped)|)
  {
    var f := q.state.files;
    var prune := PruneOps(f, skipped, keep, removals);
    GoneIsMissing(q, n);
    PrunesNewestExactly(f, skipped, ArchiveOf(n), keep, removals);
    assert ArchiveOf(n) !in skipped ==> ArchiveOf(n) in Counted(f, skipped);
    hide Between;
    hide After;
    hide PruneOps;
    forall i | 0 <= i <= |prune|
      ensures NewestGone(After(q, prune[..i]).made) <==> ArchiveOf(n) !in skipped && i == |Counted(f, skipped)|
    {
      GoneWhilePruning(q, n, skipped, keep, removals, i);
    }
  }

  /** Operations without removals, a prune, and again none: the newest file is gone in between only. */
  lemma GoneBetween(p: Past, pre: seq<Op>, prune: seq<Op>, rest: seq<Op>, counted: bool, total: nat, j: nat)
    requires NoRemovals(pre) && NoRemovals(rest) && !NewestGone(p.made) && j <= |pre + prune + rest|
    requires GoesAfter(After(p, pre), prune, counted, total)
    requires rest != [] && !rest[0].Create? ==> !NewestGone(After(After(p, pre), prune).made)
    ensures NewestGone(After(p, (pre + prune + rest)[..j]).made)
       <==> counted && |prune| == total && j == |pre| + |prune|
  {
    hide After;
    hide NoRemovals;
    hide NewestGone;
    var q, ops := After(p, pre), pre + prune + rest;
    assert prune[..|prune|] == prune;
    if j < |pre| {
      assert ops[..j] == pre[..j];
      WithoutRemovals(p, pre, j);
    } else if j <= |pre| + |prune| {
      var i := j - |pre|;
      assert ops[..j] == pre + prune[..i];
      AfterBoth(p, pre, prune[..i]);
    } else {
      var k := j - |pre| - |prune|;
      assert ops[..j] == (pre + prune) + rest[..k];
      AfterBoth(p, pre + prune, rest[..k]);
      AfterBoth(p, pre, prune);
      WithoutRemovals(After(q, prune), rest, k);
    }
  }

  lemma FlushesRemoveNothing(a: Active, k: nat)
    requires k <= |a.buffer|
    ensures NoRemovals(FlushOps(a, k)) && NoRemovals(FlushOps(a, k) + [Drop])
  {
  }

  lemma BothRemoveNothing(a: seq<Op>, b: seq<Op>)
    requires NoRemovals(a) && NoRemovals(b)
    ensures NoRemovals(a + b)
  {
  }

  lemma PutRemovesNothing(s: LogState, e: Entry, attempt: nat, env: Env)
    requires Live(s)
    ensures NoRemovals(PutStep(s, e, attempt, env).ops) && NoRemovals(LineStep(s, e, attempt, env).ops)
  {
    hide FitsIn;
    hide IsLong;
  }

  lemma QuitRemovesNothing(s: LogState, at: FlushAt, env: Env)
    requires Live(s)
    ensures NoRemovals(QuitStep(s, at, env).ops)
  {
    FlushesRemoveNothing(s.active.value, Out(env, at, s.active.value.buffer));
  }

  lemma OpeningRemovesNothing(f: Files, env: Env, attempt: nat)
    ensures NoRemovals(OpenStep(f, env, attempt).ops)
  {
  }

  lemma LastRemovesNothing(s: LogState, e: Entry, env: Env)
    requires Live(s)
    ensures NoRemovals(LastStep(s, e, env).ops)
  {
    hide LineStep;
    hide NoRemovals;
    var second := LineStep(s, e, 1, env);
    PutRemovesNothing(s, e, 1, env);
    MissRemovesNothing();
    BothRemoveNothing(second.ops, [Miss]);
  }

  lemma MissRemovesNothing()
    ensures NoRemovals([Miss])
  {
  }

  lemma RetryRemovesNothing(s: LogState, e: Entry, env: Env)
    requires Live(s)
    ensures NoRemovals(RetryStep(s, e, env).ops)
  {
    hide NoRemovals;
    hide QuitStep;
    hide OpenStep;
    hide LastStep;
    var quit := QuitStep(s, QuittingFile, env);
    var again := OpenStep(quit.state.files, env, 1);
    QuitRemovesNothing(s, QuittingFile, env);
    OpeningRemovesNothing(quit.state.files, env, 1);
    if again.ok {
      var last := LastStep(again.state, e, env);
      LastRemovesNothing(again.state, e, env);
      BothRemoveNothing(again.ops, last.ops);
      BothRemoveNothing(quit.ops, again.ops + last.ops);
    } else {
      BothRemoveNothing(quit.ops, again.ops);
    }
  }

  /** The operations of a call are those before the line, and others that remove nothing. */
  lemma CallOps(cfg: LogConfig, s: LogState, e: Entry, env: Env) returns (more: seq<Op>)
    ensures WriteStep(cfg, s, e, env).ops == PrepareStep(cfg, s, env).ops + more && NoRemovals(more)
    ensures !PrepareStep(cfg, s, env).ok ==> more == [] && !WriteStep(cfg, s, e, env).ok
  {
    var prepared := PrepareStep(cfg, s, env);
    hide PrepareStep;
    if prepared.ok {
      more := WriteOrRetry(prepared.state, e, env).ops;
      PutRemovesNothing(prepared.state, e, 0, env);
      var first := LineStep(prepared.state, e, 0, env);
      RetryRemovesNothing(first.state, e, env);
      hide LineStep;
      hide RetryStep;
    } else {
      more := [];
      assert prepared.ops + more == prepared.ops;
    }
  }

  // ----- Exactly when a call removes the newest file -----

  /** What a rotation of `s` does before its prune, and the directory it prunes. */
  ghost function ArchiveOps(s: LogState): seq<Op>
    requires Live(s)
  {
    var a := s.active.value;
    FlushOps(a, |a.buffer|) + [Drop] + [Rename(a.name, ArchiveOf(a.name))]
  }

  ghost function ArchivedFiles(s: LogState): Files
    requires Live(s)
  {
    var a := s.active.value;
    Renamed(FlushStep(s, |a.buffer|).state.files, a.name, ArchiveOf(a.name))
  }

  /** The call gets to prune: it is at the threshold, and its file is written out and archived. */
  ghost predicate GetsToPrune(cfg: LogConfig, s: LogState, env: Env) {
    var ready := ReadyStep(s, env);
    && ready.ok && ready.state.active.value.lineIndex >= cfg.Limit()
    && Out(env, BeforeRotation, ready.state.active.value.buffer) == |ready.state.active.value.buffer|
    && RenameToArchive !in env.fails
  }

  /** The prune removes the file just archived: it was counted, holds more lines than are to be kept,
      and no removal fails. */
  ghost predicate PrunesNewest(cfg: LogConfig, s: LogState, env: Env) {
    && GetsToPrune(cfg, s, env) && cfg.keepLastEntries > 0
    && var t := ReadyStep(s, env).state;
    var newest := ArchiveOf(t.active.value.name);
    && newest !in env.skipped && |ArchivedFiles(t)[newest]| > cfg.keepLastEntries
    && env.removals >= |Counted(ArchivedFiles(t), env.skipped)|
  }

  /** How many operations the call has performed by then. */
  ghost function PruneEnd(cfg: LogConfig, s: LogState, env: Env): nat
    requires GetsToPrune(cfg, s, env)
  {
    var ready := ReadyStep(s, env);
    |ready.ops| + |ArchiveOps(ready.state)| + |Counted(ArchivedFiles(ready.state), env.skipped)|
  }

  lemma RotationOps(cfg: LogConfig, s: LogState, env: Env) returns (rest: seq<Op>)
    requires Live(s) && Out(env, BeforeRotation, s.active.value.buffer) == |s.active.value.buffer|
    requires RenameToArchive !in env.fails
    ensures var pruned := Prune(cfg, ArchivedFiles(s), env); var a := s.active.value;
            && rest == CreateOrRollBack(pruned.state.files, a, env).ops
            && RotateStep(cfg, s, env).ops == ArchiveOps(s) + pruned.ops + rest && NoRemovals(rest)
            && (rest != [] && !rest[0].Create? ==> ArchiveOf(a.name) in pruned.state.files)
            && (rest == [] ==> !RotateStep(cfg, s, env).ok)
  {
    var a := s.active.value;
    var pruned := Prune(cfg, ArchivedFiles(s), env);
    rest := CreateOrRollBack(pruned.state.files, a, env).ops;
    assert rest != [] && !rest[0].Create? ==> ArchiveOf(a.name) in pruned.state.files;
    hide Prune;
    Regroup(FlushOps(a, |a.buffer|) + [Drop], [Rename(a.name, ArchiveOf(a.name))], pruned.ops, rest);
  }

  lemma Regroup<T>(a: seq<T>, b: seq<T>, c: seq<T>, d: seq<T>)
    ensures a + (b + (c + d)) == (a + b) + c + d
  {
  }

  lemma ArchiveOpsFollow(p: Past, keep: nat)
    requires Holds(p) && Live(p.state)
    ensures var q := After(p, ArchiveOps(p.state));
            && Lawful(p, ArchiveOps(p.state), keep) && Between(q, p.state.active.value.name)
            && q.state.files == ArchivedFiles(p.state)
    ensures NoRemovals(ArchiveOps(p.state))
  {
    var a := p.state.active.value;
    var flushed := FlushStep(p.state, |a.buffer|);
    FlushesRemoveNothing(a, |a.buffer|);
    FlushFollows(p, |a.buffer|, keep);
    FlushKeepsHandle(p.state, |a.buffer|);
    var drop := Step(LogState(flushed.state.files, None), false, [Drop]);
    DropFollows(After(p, flushed.ops), keep);
    BothFollow(p, flushed, drop, keep);
    var closed := Both(flushed, drop);
    FollowsHolds(p, closed, keep);
    var q := After(p, closed.ops);
    assert a.name in q.state.files;
    hide FlushStep;
    hide FilesHold;
    ArchivingFollows(q, a.name, keep);
    hide Between;
    LawfulBoth(p, closed.ops, [Rename(a.name, ArchiveOf(a.name))], keep);
    hide Lawful;
    hide After;
  }

  lemma ReadyRemovesNothing(s: LogState, env: Env)
    ensures NoRemovals(ReadyStep(s, env).ops)
  {
  }

  /** The operations of a call that gets to prune: those before the prune, the prune, and the rest. */
  lemma CallParts(cfg: LogConfig, s: LogState, e: Entry, env: Env) returns (rest: seq<Op>)
    requires GetsToPrune(cfg, s, env)
    ensures var ready := ReadyStep(s, env); var t := ready.state; var pruned := Prune(cfg, ArchivedFiles(t), env);
            && WriteStep(cfg, s, e, env).ops == (ready.ops + ArchiveOps(t)) + pruned.ops + rest && NoRemovals(rest)
            && (rest != [] && !rest[0].Create? ==> ArchiveOf(t.active.value.name) in pruned.state.files)
  {
    hide ReadyStep;
    hide NoRemovals;
    hide ArchiveOps;
    hide ArchivedFiles;
    hide Prune;
    hide RotateStep;
    hide WriteStep;
    var ready := ReadyStep(s, env);
    var t := ready.state;
    var more := CallOps(cfg, s, e, env);
    var next := RotationOps(cfg, t, env);
    assert PrepareStep(cfg, s, env) == Both(ready, RotateStep(cfg, t, env));
    hide PrepareStep;
    rest := next + more;
    BothRemoveNothing(next, more);
    Regroup4(ready.ops, ArchiveOps(t), Prune(cfg, ArchivedFiles(t), env).ops, next, more);
  }

  lemma GettingToPrune(cfg: LogConfig, p: Past, env: Env)
    requires Holds(p) && !NewestGone(p.made) && GetsToPrune(cfg, p.state, env)
    ensures var ready := ReadyStep(p.state, env); var t := ready.state; var pre := ready.ops + ArchiveOps(t);
            var q := After(p, pre);
            && NoRemovals(pre) && Between(q, t.active.value.name) && q.state.files == ArchivedFiles(t)
            && !NewestGone(q.made)
  {
    hide ReadyStep;
    hide NoRemovals;
    hide ArchiveOps;
    hide ArchivedFiles;
    hide Holds;
    hide Between;
    hide Lawful;
    hide After;
    hide NewestGone;
    var ready := ReadyStep(p.state, env);
    var t := ready.state;
    ReadyFollows(p, env, cfg.keepLastEntries);
    FollowsHolds(p, ready, cfg.keepLastEntries);
    ReadyRemovesNothing(p.state, env);
    ArchiveOpsFollow(After(p, ready.ops), cfg.keepLastEntries);
    AfterBoth(p, ready.ops, ArchiveOps(t));
    BothRemoveNothing(ready.ops, ArchiveOps(t));
    NoneRemovedSo(p, ready.ops + ArchiveOps(t));
  }

  lemma RotationGoneExactly(cfg: LogConfig, p: Past, e: Entry, env: Env, j: nat)
    requires Holds(p) && !NewestGone(p.made) && GetsToPrune(cfg, p.state, env)
    requires j <= |WriteStep(cfg, p.state, e, env).ops|
    ensures NewestGone(After(p, WriteStep(cfg, p.state, e, env).ops[..j]).made)
       <==> PrunesNewest(cfg, p.state, env) && j == PruneEnd(cfg, p.state, env)
  {
    hide Holds;
    hide Between;
    hide ReadyStep;
    hide WriteStep;
    hide NoRemovals;
    hide ArchiveOps;
    hide ArchivedFiles;
    hide After;
    hide NewestGone;
    hide Counted;
    var rest := CallParts(cfg, p.state, e, env);
    GettingToPrune(cfg, p, env);
    var ready := ReadyStep(p.state, env);
    var n := ready.state.active.value.name;
    var pre := ready.ops + ArchiveOps(ready.state);
    var q := After(p, pre);
    var pruned := Prune(cfg, q.state.files, env);
    PruningFollows(cfg, q, n, env);
    GoneIsMissing(q, n);
    GoneIsMissing(After(q, pruned.ops), n);
    PruneGone(cfg, p, pre, n, env, rest, j);
    PrunesNewestExactly(q.state.files, env.skipped, ArchiveOf(n), cfg.keepLastEntries, env.removals);
    hide NewestOf;
    hide Pruned;
    hide PruneOps;
  }

  lemma NoneRemovedSo(p: Past, pre: seq<Op>)
    requires NoRemovals(pre) && !NewestGone(p.made)
    ensures !NewestGone(After(p, pre).made)
  {
    assert pre[..|pre|] == pre;
    WithoutRemovals(p, pre, |pre|);
  }

  lemma Regroup4<T>(a: seq<T>, b: seq<T>, c: seq<T>, d: seq<T>, e: seq<T>)
    ensures (a + (b + c + d)) + e == (a + b) + c + (d + e)
  {
  }

  lemma PruneGone(cfg: LogConfig, p: Past, pre: seq<Op>, n: LogName, env: Env, rest: seq<Op>, j: nat)
    requires NoRemovals(pre) && NoRemovals(rest) && !NewestGone(p.made) && Between(After(p, pre), n)
    requires var q := After(p, pre); var pruned := Prune(cfg, q.state.files, env);
             && j <= |pre + pruned.ops + rest|
             && (rest != [] && !rest[0].Create? ==> !NewestGone(After(q, pruned.ops).made))
    ensures var q := After(p, pre); var pruned := Prune(cfg, q.state.files, env);
            NewestGone(After(p, (pre + pruned.ops + rest)[..j]).made)
            <==> && cfg.keepLastEntries > 0 && ArchiveOf(n) !in env.skipped
                 && |pruned.ops| == |Counted(q.state.files, env.skipped)| && j == |pre| + |pruned.ops|
  {
    if cfg.keepLastEntries > 0 {
      var q := After(p, pre);
      var prune := PruneOps(q.state.files, env.skipped, cfg.keepLastEntries, env.removals);
      NoneRemovedSo(p, pre);
      PruneGoes(q, n, env.skipped, cfg.keepLastEntries, env.removals);
      hide PruneOps;
      GoneBetween(p, pre, prune, rest, ArchiveOf(n) !in env.skipped, |Counted(q.state.files, env.skipped)|, j);
    } else {
      BothRemoveNothing(pre, rest);
      assert pre + [] + rest == pre + rest;
      WithoutRemovals(p, pre + rest, j);
    }
    hide After;
  }

  /** Within a call the newest file is gone at exactly one moment, and only of a call that prunes it:
      after its last removal, before the next file. A call that cannot create that file ends there,
      and so does one cut short there. */
  lemma NewestGoesExactly(cfg: LogConfig, p: Past, e: Entry, env: Env, j: nat)
    requires Holds(p) && !NewestGone(p.made) && j <= |WriteStep(cfg, p.state, e, env).ops|
    ensures NewestGone(After(p, WriteStep(cfg, p.state, e, env).ops[..j]).made)
       <==> PrunesNewest(cfg, p.state, env) && j == PruneEnd(cfg, p.state, env)
  {
    if GetsToPrune(cfg, p.state, env) {
      RotationGoneExactly(cfg, p, e, env, j);
    } else {
      var ops := WriteStep(cfg, p.state, e, env).ops;
      var more := CallOps(cfg, p.state, e, env);
      NotPruningRemovesNothing(cfg, p.state, env);
      BothRemoveNothing(PrepareStep(cfg, p.state, env).ops, more);
      hide PrepareStep;
      hide WriteStep;
      WithoutRemovals(p, ops, j);
    }
  }

  lemma NotPruningRemovesNothing(cfg: LogConfig, s: LogState, env: Env)
    requires !GetsToPrune(cfg, s, env)
    ensures NoRemovals(PrepareStep(cfg, s, env).ops)
  {
    ReadyRemovesNothing(s, env);
    var ready := ReadyStep(s, env);
    hide ReadyStep;
    if ready.ok && ready.state.active.value.lineIndex >= cfg.Limit() {
      var t := ready.state;
      var k := Out(env, BeforeRotation, t.active.value.buffer);
      var flushed := FlushStep(t, k);
      FlushesRemoveNothing(t.active.value, k);
      var b := flushed.state.active.value;
      FlushesRemoveNothing(b, Out(env, QuittingRotation, b.buffer));
    }
  }
}
