/** What a resume call finds and how it ends, over every interleaving, told from the history of the run. */
module HandoffOutcomes {
  import opened Prelude
  import S = AsyncStore
  import opened HandoffRegistry
  import opened HandoffProtocol

  // ---------------------------------------------------------------- what the registry shows

  /** The latest Begin of `h` before state `q` is step `i`, and `h` has stood in the registry ever since. */
  ghost predicate LastBegun(trace: seq<Sys>, steps: seq<Step>, i: nat, q: nat, h: S.Handle)
    requires i < q < |trace| == |steps| + 1
  {
    && steps[i].BeginStep? && steps[i].handle == h
    && (forall j :: i < j < q ==> !(steps[j].BeginStep? && steps[j].handle == h))
    && (forall j :: i < j <= q ==> h in trace[j].cont)
  }

  /** What one step means for the entry of `h`. */
  ghost predicate EntryMoves(s: Sys, step: Step, n: Sys, h: S.Handle) {
    && (h in n.cont ==> EntryFrom(s, step, n, h))
    && (step.BeginStep? && step.handle == h ==> h in n.cont)
  }

  lemma StepEntry(cfg: Config, s: Sys, step: Step, h: S.Handle)
    requires Enabled(cfg, s, step)
    ensures EntryMoves(s, step, Next(cfg, s, step), h)
  {
    if step.BeginStep? {
      BeginShape(cfg, s, step.handle, step.cont, step.walk);
    }
    if h in Next(cfg, s, step).cont {
      EntryStep(cfg, s, step, h);
    }
  }

  /** The entry of `h` in state `q` is that of its latest Begin. */
  ghost predicate EntryAt(trace: seq<Sys>, steps: seq<Step>, q: nat, h: S.Handle)
    requires q < |trace| == |steps| + 1
  {
    && (h in trace[q].cont ==> exists i :: 0 <= i < q && LastBegun(trace, steps, i, q, h))
    && (forall i :: 0 <= i < q && LastBegun(trace, steps, i, q, h) ==>
          h in trace[q].cont && trace[q].cont[h] == Entry(trace[i].clock, steps[i].cont))
  }

  lemma EntryNext(trace: seq<Sys>, steps: seq<Step>, r: nat, h: S.Handle)
    requires r + 1 < |trace| == |steps| + 1 && EntryAt(trace, steps, r, h)
    requires EntryMoves(trace[r], steps[r], trace[r + 1], h)
    ensures EntryAt(trace, steps, r + 1, h)
  {
    var q := r + 1;
    if h in trace[q].cont {
      if steps[r].BeginStep? && steps[r].handle == h {
        assert LastBegun(trace, steps, r, q, h);
      } else {
        var i :| 0 <= i < r && LastBegun(trace, steps, i, r, h);
        assert LastBegun(trace, steps, i, q, h);
      }
    }
    forall i | 0 <= i < q && LastBegun(trace, steps, i, q, h)
      ensures h in trace[q].cont && trace[q].cont[h] == Entry(trace[i].clock, steps[i].cont)
    {
      if i < r {
        assert LastBegun(trace, steps, i, r, h);
      }
    }
  }

  /** An entry of the registry is that of the latest Begin of its handle, with its instant. */
  lemma {:induction false} EntryExact(cfg: Config, trace: seq<Sys>, steps: seq<Step>, q: nat, h: S.Handle)
    requires IsRun(cfg, trace, steps) && q < |trace|
    ensures EntryAt(trace, steps, q, h)
  {
    if q > 0 {
      EntryExact(cfg, trace, steps, q - 1, h);
      StepEntry(cfg, trace[q - 1], steps[q - 1], h);
      EntryNext(trace, steps, q - 1, h);
    }
  }

  /** A registry read runs a continuation exactly if it was registered by the latest Begin of the handle, no
      longer than the session TTL ago, and the handle has not left the registry since. */
  lemma RegistryReadExact(cfg: Config, trace: seq<Sys>, steps: seq<Step>, q: nat, k: nat, c: Cont)
    requires IsRun(cfg, trace, steps) && q < |steps| && steps[q] == RegistryRead(k)
    ensures k in trace[q].calls && k in trace[q + 1].calls
    ensures (trace[q + 1].calls[k].pc == Running && trace[q + 1].calls[k].seen == Some(c)) <==>
            exists i :: 0 <= i < q && LastBegun(trace, steps, i, q, trace[q].calls[k].handle) &&
                        steps[i].cont == c && trace[q].clock - trace[i].clock <= cfg.ttl
    ensures trace[q + 1].calls[k].pc != Running ==> trace[q + 1].calls[k].pc == Returned(NoContinuation)
  {
    EntryExact(cfg, trace, steps, q, trace[q].calls[k].handle);
    RegistryReadRuns(cfg, trace[q], k);
    RegistryReadMisses(cfg, trace[q], k);
  }

  lemma RegistryReadMisses(cfg: Config, s: Sys, k: nat)
    requires Enabled(cfg, s, RegistryRead(k))
    ensures var n := Next(cfg, s, RegistryRead(k));
            k in n.calls && (n.calls[k].pc != Running ==> n.calls[k].pc == Returned(NoContinuation))
  {
  }

  /** How the call goes on after its store read: refused, to End with the right reason, or to the registry. */
  lemma StoreReadExact(cfg: Config, s: Sys, k: nat, h: S.Handle)
    requires Enabled(cfg, s, StoreRead(k, h))
    ensures k in Next(cfg, s, StoreRead(k, h)).calls
    ensures var call := Next(cfg, s, StoreRead(k, h)).calls[k];
            && call.handle == h
            && (call.pc == Returned(HandleRequired) <==> h == 0)
            && (call.pc == Ending && call.result == DeadHandle(false) <==> h != 0 && h !in s.items)
            && (call.pc == Ending && call.result == DeadHandle(true) <==> h != 0 && h in s.items && s.clock > s.items[h].expiresAt)
            && (call.pc == Live <==> h != 0 && h in s.items && s.clock <= s.items[h].expiresAt)
  {
  }

  /** Which steps take a flow out of the registry: an End of its handle, by name or by a resume call; a prune,
      exactly when the flow is past its TTL; and a Begin of another handle, when it is past its TTL or when
      the registry is full of current flows. */
  lemma LeavesExact(cfg: Config, s: Sys, step: Step, h: S.Handle)
    requires Enabled(cfg, s, step) && h in s.cont
    ensures var over := s.clock - s.cont[h].createdAt > cfg.ttl;
            var gone := h !in Next(cfg, s, step).cont;
            match step
            case EndStep(x) => gone <==> x == h
            case ResumeEnd(k) => gone <==> s.calls[k].handle == h
            case PruneStep => gone <==> over
            case BeginStep(x, _, _) =>
              (x == h ==> !gone) && (x != h && over ==> gone) && (gone && !over ==> |Current(s.cont, cfg.ttl, s.clock)| >= cfg.max)
            case _ => !gone
  {
    if step.BeginStep? {
      BeginShape(cfg, s, step.handle, step.cont, step.walk);
      BeginLeaves(s.cont, cfg.ttl, cfg.max, step.handle, step.cont, s.clock, step.walk);
    } else {
      OnlyBeginAdds(cfg, s, step);
    }
  }

  // ---------------------------------------------------------------- how a call ends

  lemma AnswerMoves(cfg: Config, s: Sys, k: nat, a: Answer)
    requires Enabled(cfg, s, AnswerStep(k, a))
    ensures var n := Next(cfg, s, AnswerStep(k, a));
            && k in n.calls && n.cont == s.cont && n.calls[k].handle == s.calls[k].handle
            && (Unfinished(a) ==> n.calls[k].pc == Returned(if a.Failure? then ContinuationFailed else Answered(a)))
            && (!Unfinished(a) ==> n.calls[k].pc == Ending && n.calls[k].result == Answered(a))
  {
  }

  /** A call that has returned, or is about to take the lock for End, stays so until it does. */
  ghost predicate Rests(s: Sys, step: Step, n: Sys, k: nat) {
    k in s.calls && (s.calls[k].pc.Returned? || (s.calls[k].pc.Ending? && step != ResumeEnd(k))) ==>
      k in n.calls && n.calls[k] == s.calls[k]
  }

  lemma StepRests(cfg: Config, s: Sys, step: Step, k: nat)
    requires Enabled(cfg, s, step)
    ensures Rests(s, step, Next(cfg, s, step), k)
  {
    if step.StoreRead? || step.RegistryRead? || step.AnswerStep? || step.ResumeEnd? {
      OtherCallRests(cfg, s, step, k);
    } else {
      SameCalls(cfg, s, step);
    }
  }

  lemma OtherCallRests(cfg: Config, s: Sys, step: Step, k: nat)
    requires Enabled(cfg, s, step) && (step.StoreRead? || step.RegistryRead? || step.AnswerStep? || step.ResumeEnd?)
    ensures Rests(s, step, Next(cfg, s, step), k)
  {
  }

  ghost predicate Resting(trace: seq<Sys>, steps: seq<Step>, k: nat) {
    |trace| == |steps| + 1 && forall i :: 0 <= i < |steps| ==> Rests(trace[i], steps[i], trace[i + 1], k)
  }

  lemma RunRests(cfg: Config, trace: seq<Sys>, steps: seq<Step>, k: nat)
    requires IsRun(cfg, trace, steps)
    ensures Resting(trace, steps, k)
  {
    forall i | 0 <= i < |steps| ensures Rests(trace[i], steps[i], trace[i + 1], k) {
      StepRests(cfg, trace[i], steps[i], k);
    }
  }

  lemma {:induction false} StaysReturned(trace: seq<Sys>, steps: seq<Step>, i: nat, j: nat, k: nat)
    requires Resting(trace, steps, k) && i <= j < |trace| && k in trace[i].calls && trace[i].calls[k].pc.Returned?
    ensures k in trace[j].calls && trace[j].calls[k] == trace[i].calls[k]
  {
    if i < j {
      StaysReturned(trace, steps, i, j - 1, k);
      assert Rests(trace[j - 1], steps[j - 1], trace[j - 1 + 1], k);
    }
  }

  /** An unfinished answer is handed to the caller as it is, a failure as such, and the call never takes the
      registry lock for End. */
  lemma UnfinishedNeverEnds(cfg: Config, trace: seq<Sys>, steps: seq<Step>, i: nat, j: nat, k: nat, a: Answer)
    requires IsRun(cfg, trace, steps) && i < j < |steps| && steps[i] == AnswerStep(k, a) && Unfinished(a)
    ensures k in trace[j].calls && trace[j].calls[k].pc == Returned(if a.Failure? then ContinuationFailed else Answered(a))
    ensures steps[j] != ResumeEnd(k)
  {
    AnswerMoves(cfg, trace[i], k, a);
    RunRests(cfg, trace, steps, k);
    StaysReturned(trace, steps, i + 1, j, k);
  }

  lemma {:induction false} StaysEnding(trace: seq<Sys>, steps: seq<Step>, i: nat, j: nat, k: nat)
    requires Resting(trace, steps, k) && i <= j < |trace| && k in trace[i].calls && trace[i].calls[k].pc.Ending?
    requires forall x :: i <= x < j ==> steps[x] != ResumeEnd(k)
    ensures k in trace[j].calls && trace[j].calls[k] == trace[i].calls[k]
  {
    if i < j {
      StaysEnding(trace, steps, i, j - 1, k);
      assert Rests(trace[j - 1], steps[j - 1], trace[j - 1 + 1], k);
    }
  }

  /** Any other answer ends the flow: the call's next step is its End, which takes the handle out of the
      registry and returns the answer. */
  lemma FinishedEnds(cfg: Config, trace: seq<Sys>, steps: seq<Step>, i: nat, j: nat, k: nat, a: Answer)
    requires IsRun(cfg, trace, steps) && i < j < |steps| && steps[i] == AnswerStep(k, a) && !Unfinished(a)
    requires forall x :: i < x < j ==> steps[x] != ResumeEnd(k)
    ensures k in trace[i].calls && Enabled(cfg, trace[j], ResumeEnd(k))
    ensures steps[j] == ResumeEnd(k) ==>
              trace[i].calls[k].handle !in trace[j + 1].cont && k in trace[j + 1].calls && trace[j + 1].calls[k].pc == Returned(Answered(a))
  {
    AnswerMoves(cfg, trace[i], k, a);
    RunRests(cfg, trace, steps, k);
    StaysEnding(trace, steps, i + 1, j, k);
  }

  // ---------------------------------------------------------------- polling a flow

  /** Step `j` takes `h` out of the registry. */
  ghost predicate TakesOut(trace: seq<Sys>, j: nat, h: S.Handle)
    requires j + 1 < |trace|
  {
    h in trace[j].cont && h !in trace[j + 1].cont
  }

  lemma {:induction false} EntryKeptAlong(trace: seq<Sys>, steps: seq<Step>, p: nat, q: nat, h: S.Handle)
    requires Story(trace, steps) && p <= q < |trace| && h in trace[p].cont
    requires forall j :: p <= j < q ==> !(steps[j].BeginStep? && steps[j].handle == h) && !TakesOut(trace, j, h)
    ensures h in trace[q].cont && trace[q].cont[h] == trace[p].cont[h]
  {
    if p < q {
      EntryKeptAlong(trace, steps, p, q - 1, h);
      assert !TakesOut(trace, q - 1, h);
      assert Follows(trace[q - 1], steps[q - 1], trace[q - 1 + 1]);
      assert EntryFrom(trace[q - 1], steps[q - 1], trace[q], h);
    }
  }

  /** The steps of call `k` after its registry read found a continuation, up to its unfinished answer and
      beyond, take nothing out. */
  lemma CallTakesNothing(cfg: Config, trace: seq<Sys>, steps: seq<Step>, p: nat, i: nat, k: nat, a: Answer, j: nat)
    requires IsRun(cfg, trace, steps) && p < i < |steps| && p <= j < |steps|
    requires steps[p] == RegistryRead(k) && steps[i] == AnswerStep(k, a) && Unfinished(a)
    ensures steps[j] != ResumeEnd(k)
  {
    if steps[j] == ResumeEnd(k) && j < i {
      RunRests(cfg, trace, steps, k);
      EndReturns(cfg, trace[j], k);
      StaysReturned(trace, steps, j + 1, i, k);
    } else if i < j {
      UnfinishedNeverEnds(cfg, trace, steps, i, j, k, a);
    }
  }

  lemma EndReturns(cfg: Config, s: Sys, k: nat)
    requires Enabled(cfg, s, ResumeEnd(k))
    ensures var n := Next(cfg, s, ResumeEnd(k)); k in n.calls && n.calls[k].pc.Returned?
  {
  }

  /** A hand-off that is not finished can be polled: after an unfinished answer, and unless somebody else
      begins the handle again or takes it out, the next resume within the session TTL runs the very same
      continuation. */
  lemma UnfinishedRunsAgain(cfg: Config, trace: seq<Sys>, steps: seq<Step>, p: nat, i: nat, q: nat, k: nat, m: nat, a: Answer)
    requires IsRun(cfg, trace, steps) && p < i < q < |steps|
    requires steps[p] == RegistryRead(k) && steps[i] == AnswerStep(k, a) && Unfinished(a) && steps[q] == RegistryRead(m)
    requires k in trace[p].calls && m in trace[q].calls && trace[q].calls[m].handle == trace[p].calls[k].handle
    requires k in trace[p + 1].calls && trace[p + 1].calls[k].pc == Running
    requires var h := trace[p].calls[k].handle;
             && h in trace[p].cont && trace[q].clock - trace[p].cont[h].createdAt <= cfg.ttl
             && forall j :: p <= j < q ==>
                  !(steps[j].BeginStep? && steps[j].handle == h) && (TakesOut(trace, j, h) ==> steps[j] == ResumeEnd(k))
    ensures m in trace[q + 1].calls && trace[q + 1].calls[m].pc == Running
    ensures trace[q + 1].calls[m].seen == trace[p + 1].calls[k].seen
  {
    var h := trace[p].calls[k].handle;
    forall j | p <= j < q ensures !TakesOut(trace, j, h) {
      CallTakesNothing(cfg, trace, steps, p, i, k, a, j);
    }
    RunStory(cfg, trace, steps);
    EntryKeptAlong(trace, steps, p, q, h);
    RegistryReadRuns(cfg, trace[p], k);
    RegistryReadRuns(cfg, trace[q], m);
  }
}
