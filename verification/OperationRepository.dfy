/** The repository of operation control and sync runs: its methods change the
    stored rows statement by statement, and each is proved to be the step that
    `Operations` says it is. */
module OperationStore {
  import opened Wrappers
  import opened Text
  import opened DateText
  import opened Operations

  class OperationRepository {
    var runs: seq<SyncRun>
    var control: Control
    const slugs: set<string>

    function Snapshot(): Log
      reads this
    {
      Log(runs, control, slugs)
    }

    constructor (slugs: set<string>)
      ensures Snapshot() == Log([], Control(ReadOnly, false, ""), slugs)
    {
      this.runs, this.control, this.slugs := [], Control(ReadOnly, false, ""), slugs;
    }

    method SetControl(mode: Mode, schedulerEnabled: bool, at: string) returns (r: Result<Control, OperationError>)
      modifies this`control
      ensures match Operations.SetControl(old(Snapshot()), mode, schedulerEnabled, at)
              case Failure(e) => r == Failure(e) && Snapshot() == old(Snapshot())
              case Success(log) => r == Success(control) && Snapshot() == log
    {
      if !IsCanonicalTimestamp(at) { return Failure(Validation); }
      if mode == ReadOnly && schedulerEnabled { return Failure(Validation); }
      control := Control(mode, schedulerEnabled, at);
      r := Success(control);
    }

    /** Entering maintenance stops the scheduler in the same update. */
    method EnterReadOnly(at: string) returns (r: Result<Control, OperationError>)
      modifies this`control
      ensures r.Success? <==> IsCanonicalTimestamp(at)
      ensures control == if r.Success? then Control(ReadOnly, false, at) else old(control)
    {
      r := SetControl(ReadOnly, false, at);
    }

    /** Enabling writes leaves the scheduler off. */
    method EnableWrites(at: string) returns (r: Result<Control, OperationError>)
      modifies this`control
      ensures r.Success? <==> IsCanonicalTimestamp(at)
      ensures control == if r.Success? then Control(Enabled, false, at) else old(control)
    {
      r := SetControl(Enabled, false, at);
    }

    method SetSchedulerEnabled(enabled: bool, at: string) returns (r: Result<Control, OperationError>)
      modifies this`control
      ensures match Operations.SetSchedulerEnabled(old(Snapshot()), enabled, at)
              case Failure(e) => r == Failure(e) && Snapshot() == old(Snapshot())
              case Success(log) => r == Success(control) && Snapshot() == log
    {
      if !IsCanonicalTimestamp(at) { return Failure(Validation); }
      if !enabled || control.mode == Enabled {
        control := control.(schedulerEnabled := enabled, updatedAt := at);
        return Success(control);
      }
      r := Failure(if control.mode == ReadOnly then IsReadOnly else Coordination);
    }

    method ClaimManual(slug: string, startedAt: string) returns (r: Result<ClaimOutcome, OperationError>)
      modifies this`runs
      ensures match Operations.ClaimManual(old(Snapshot()), slug, startedAt)
              case Failure(e) => r == Failure(e) && Snapshot() == old(Snapshot())
              case Success((log, outcome)) => r == Success(outcome) && Snapshot() == log
    {
      hide Trim, IsCanonicalTimestamp, TextLess;
      if !NonEmpty(slug) || !IsCanonicalTimestamp(startedAt) { return Failure(Validation); }
      if control.mode == Enabled && slug in slugs && !SomeRunning(runs, slug) {
        runs := runs + [NewRun(slug, None, startedAt)];
        return Success(Claimed(|runs|));
      }
      if control.mode != Enabled { return Failure(IsReadOnly); }
      if slug !in slugs { return Failure(ConnectionNotFound); }
      var current := CurrentRun(runs, slug);
      if current == 0 { return Failure(Coordination); }
      r := Success(AlreadyRunning(current));
    }

    method ClaimScheduled(
      slug: string, slot: string, startedAt: string)
      returns (r: Result<ClaimOutcome, OperationError>)
      modifies this`runs
      ensures match Operations.ClaimScheduled(old(Snapshot()), slug, slot, startedAt)
              case Failure(e) => r == Failure(e) && Snapshot() == old(Snapshot())
              case Success((log, outcome)) => r == Success(outcome) && Snapshot() == log
    {
      hide NonEmpty, IsCanonicalTimestamp, CurrentRun, CoveringRun, SlotRun, SlotErrors, SomeRunning, SomeLive,
          SomeCovers;
      if !NonEmpty(slug) || !IsCanonicalTimestamp(slot) || !IsCanonicalTimestamp(startedAt) {
        return Failure(Validation);
      }
      var allowed := control.mode == Enabled && control.schedulerEnabled && slug in slugs
        && !SomeCovers(runs, slug, slot) && SlotErrors(runs, slug, slot) < MAX_SCHEDULED_ATTEMPTS;
      if allowed && !SomeRunning(runs, slug) && !SomeLive(runs, slug, slot) {
        runs := runs + [NewRun(slug, Some(slot), startedAt)];
        return Success(Claimed(|runs|));
      }
      if control.mode != Enabled { return Failure(IsReadOnly); }
      if !control.schedulerEnabled { return Failure(SchedulerDisabled); }
      if slug !in slugs { return Failure(ConnectionNotFound); }
      var current := CurrentRun(runs, slug);
      if current > 0 {
        if runs[current - 1].slot == Some(slot) { return Success(AlreadyScheduled(current)); }
        return Success(AlreadyRunning(current));
      }
      var covering := CoveringRun(runs, slug, slot);
      if covering > 0 { return Success(CoveredBySuccess(covering)); }
      var existing := SlotRun(runs, slug, slot);
      if existing > 0 { return Success(AlreadyScheduled(existing)); }
      r := Failure(Coordination);
    }

    /** Ends every stale run of the connection and returns their ids in order. */
    method InterruptStale(
      slug: string, finishedAt: string, cutoff: string)
      returns (r: Result<seq<int>, OperationError>)
      modifies this`runs
      ensures match Operations.InterruptStale(old(Snapshot()), slug, finishedAt, cutoff)
              case Failure(e) => r == Failure(e) && Snapshot() == old(Snapshot())
              case Success(log) => r.Success? && Snapshot() == log
      ensures r.Success? ==>
                forall id :: id in r.value <==> HasRun(old(runs), id) && IsStale(old(runs)[id - 1], slug, cutoff)
      ensures r.Success? ==> forall i, j :: 0 <= i < j < |r.value| ==> r.value[i] < r.value[j]
    {
      hide Trim, IsCanonicalTimestamp, TextLess;
      if !NonEmpty(slug) || !IsCanonicalTimestamp(finishedAt) || !IsCanonicalTimestamp(cutoff) {
        return Failure(Validation);
      }
      if control.mode != Enabled { return Failure(IsReadOnly); }
      var interrupted: seq<int> := [];
      ghost var before := runs;
      for i := 0 to |runs|
        invariant |runs| == |before|
        invariant forall k :: i <= k < |runs| ==> runs[k] == before[k]
        invariant forall k :: 0 <= k < i ==>
                    runs[k]
                    == if IsStale(before[k], slug, cutoff) then Interrupted(before[k], finishedAt) else before[k]
        invariant forall id :: id in interrupted <==> 1 <= id <= i && IsStale(before[id - 1], slug, cutoff)
        invariant forall j :: 0 <= j < |interrupted| ==> interrupted[j] <= i
        invariant forall j, k :: 0 <= j < k < |interrupted| ==> interrupted[j] < interrupted[k]
      {
        if IsStale(runs[i], slug, cutoff) {
          runs := runs[i := Interrupted(runs[i], finishedAt)];
          interrupted := interrupted + [i + 1];
        }
      }
      assert runs == InterruptAll(before, slug, finishedAt, cutoff);
      r := Success(interrupted);
    }

    method CompleteSuccess(
      id: int, finishedAt: string, completion: Completion)
      returns (r: Result<SyncRun, OperationError>)
      modifies this`runs
      ensures match Operations.CompleteSuccess(old(Snapshot()), id, finishedAt, completion)
              case Failure(e) => r == Failure(e) && Snapshot() == old(Snapshot())
              case Success(log) => HasRun(runs, id) && r == Success(runs[id - 1]) && Snapshot() == log
    {
      if id <= 0 || !IsCanonicalTimestamp(finishedAt) { return Failure(Validation); }
      if completion.events < 0 || completion.loans < 0 || completion.snapshots < 0 { return Failure(Validation); }
      if !(id <= |runs| && runs[id - 1].status == Running) { return Failure(Coordination); }
      runs := runs[id - 1 := runs[id - 1].(
        status := Succeeded, finishedAt := Some(finishedAt), message := None, completion := completion)];
      r := Success(runs[id - 1]);
    }

    method CompleteError(id: int, finishedAt: string, message: string) returns (r: Result<SyncRun, OperationError>)
      modifies this`runs
      ensures match Operations.CompleteError(old(Snapshot()), id, finishedAt, message)
              case Failure(e) => r == Failure(e) && Snapshot() == old(Snapshot())
              case Success(log) => HasRun(runs, id) && r == Success(runs[id - 1]) && Snapshot() == log
    {
      if id <= 0 || !IsCanonicalTimestamp(finishedAt) || !NonEmpty(message) { return Failure(Validation); }
      if !(id <= |runs| && runs[id - 1].status == Running) { return Failure(Coordination); }
      runs := runs[id - 1 := runs[id - 1].(
        status := Errored, finishedAt := Some(finishedAt), message := Some(message))];
      r := Success(runs[id - 1]);
    }
  }
}
