/** The flag arrays of DllManager and the handler of FlowCompletionCoordinator, as they write them. */
module DllFlow {
  import opened FlowCompletion

  /** DllManager's flags, and the coordinator's handler; `log` is what the outside sees. */
  class DllManager {
    const n: nat
    const ocFlowStart: array<bool>
    const isProcessDone: array<bool>
    const preActionNg: array<int>
    const ocCheckSerialNb: array<bool>
    const timerEnabled: array<bool>
    const isInUse: array<bool>
    var log: seq<Out>

    ghost predicate Valid()
      reads this
    {
      && n == ocFlowStart.Length == isProcessDone.Length == preActionNg.Length == ocCheckSerialNb.Length
           == timerEnabled.Length == isInUse.Length
      && ocFlowStart != isProcessDone && ocFlowStart != ocCheckSerialNb && ocFlowStart != timerEnabled && ocFlowStart != isInUse
      && isProcessDone != ocCheckSerialNb && isProcessDone != timerEnabled && isProcessDone != isInUse
      && ocCheckSerialNb != timerEnabled && ocCheckSerialNb != isInUse && timerEnabled != isInUse
    }

    ghost function View(): (f: Flow)
      reads this, ocFlowStart, isProcessDone, preActionNg, ocCheckSerialNb, timerEnabled, isInUse
      requires Valid()
      ensures Shaped(f, n)
    {
      Flow(ocFlowStart[..], isProcessDone[..], preActionNg[..], ocCheckSerialNb[..], timerEnabled[..], isInUse[..], log)
    }

    method StartOcFlow(c: nat, ok: bool) returns (r: int)
      requires Valid()
      modifies this, isProcessDone, ocFlowStart, timerEnabled
      ensures Valid() && View() == FlowCompletion.StartOcFlow(old(View()), n, c, ok)
      ensures r == if c < n && ok then 0 else 2
    {
      if c >= n {
        return 2;
      }
      isProcessDone[c] := false;
      log := log + [Attempt(c, ok)];
      if !ok {
        return 2;
      }
      ocFlowStart[c] := true;
      timerEnabled[c] := true;
      return 0;
    }

    /** Marks the unused channels of a pair. */
    method MarkUnused(i: nat)
      requires Valid() && i + 1 < n
      modifies isProcessDone
      ensures isProcessDone[..] == old(isProcessDone[..])[i := old(isProcessDone[i]) || !isInUse[i]]
                                   [i + 1 := old(isProcessDone[i + 1]) || !isInUse[i + 1]]
    {
      if !isInUse[i] {
        isProcessDone[i] := true;
      }
      if !isInUse[i + 1] {
        isProcessDone[i + 1] := true;
      }
    }

    method RunFinish(c: nat)
      requires Valid() && c < n
      modifies `log
      ensures log == old(log) + if isInUse[c] then [Finish(c)] else []
    {
      if isInUse[c] {
        log := log + [Finish(c)];
      }
    }

    /** Process_Finish for a pair that is complete. */
    method FinishPair(i: nat)
      requires Valid() && i + 1 < n && i % 2 == 0
      modifies `log, isProcessDone
      ensures isProcessDone[..] == old(isProcessDone[..])[i := false][i + 1 := false]
      ensures log == old(log) + Finishes(old(View()), PairOf(i))
    {
      RunFinish(i);
      RunFinish(i + 1);
      log := log + [Complete(PairOf(i))];
      isProcessDone[i] := false;
      isProcessDone[i + 1] := false;
    }

    /** The coordinator's look at a pair. */
    method CheckPair(i: nat)
      requires Valid() && i + 1 < n && i % 2 == 0
      modifies `log, isProcessDone
      ensures Valid() && View() == OnWorkDone(old(View()), n, i, false)
    {
      hide Finishes;
      ghost var f := View();
      MarkUnused(i);
      SameFinishes(f, View(), PairOf(i));
      if isProcessDone[i] && isProcessDone[i + 1] {
        FinishPair(i);
      }
    }

    /** FlowCompletionCoordinator.OnDllEvent. */
    method OnDllEvent(c: nat, inlineGib: bool)
      requires Valid()
      modifies this, isProcessDone
      ensures Valid() && View() == OnWorkDone(old(View()), n, c, inlineGib)
    {
      if c >= n {
        return;
      }
      hide Finishes;
      if inlineGib {
        RunFinish(c);
        isProcessDone[c] := false;
      } else {
        var pairStart := (c / 2) * 2;
        if pairStart + 1 >= n {
          return;
        }
        CheckPair(pairStart);
      }
    }

    /** OnAliveCheckTimer. */
    method OnAliveCheckTimer(c: nat, alive: bool, inlineGib: bool)
      requires Valid()
      modifies this, ocFlowStart, isProcessDone, preActionNg, ocCheckSerialNb, timerEnabled
      ensures Valid() && View() == Tick(old(View()), n, c, alive, inlineGib)
    {
      if c >= n {
        return;
      }
      if ocFlowStart[c] && preActionNg[c] != 0 {
        preActionNg[c] := 0;
        log := log + [Stopped(c)];
      } else if ocFlowStart[c] && ocCheckSerialNb[c] {
        ocCheckSerialNb[c] := false;
        log := log + [Stopped(c)];
      } else if ocFlowStart[c] && !alive {
        ocFlowStart[c] := false;
        timerEnabled[c] := false;
        isProcessDone[c] := true;
        log := log + [WorkDone(c)];
        assert View() == Ended(old(View()), c);
        OnDllEvent(c, inlineGib);
      }
    }
  }
}
