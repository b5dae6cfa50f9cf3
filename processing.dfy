/**
 * The run bookkeeping of the Flet front end (`processing_state`): the guard
 * against starting twice, the end of the worker (cancel, error, compression
 * gate), the files the run created, and the report the monitor shows.
 */
module Processing {
  import opened Wrappers
  import opened Folder
  import opened Copying
  import opened Batch

  const Preparing := "準備中..."
  const Cancelling := "キャンセル中..."

  /** The dialog the monitor opens once the run is over, checked in this order. */
  datatype Report = CancelReport(created: set<string>) | ErrorReport(error: Error) | SuccessReport

  /** The `processing_state` dictionary. */
  class ProcessingState {
    var isProcessing: bool
    var current: nat
    var total: nat
    var message: string
    var completed: bool
    var error: Option<Error>
    /** The flag that keeps a second run from starting. */
    var started: bool
    var cancelled: bool
    /** `created_files`, as a set (its list order comes from a set and means nothing). */
    var created: set<string>
    var outputFolder: string
    /** `existing_files`: the output listing when the run started. */
    var existing: set<string>

    /**
     * A run in progress has been started and not yet wound up by the monitor,
     * so `Execute` refuses a second start while a worker is running.
     */
    predicate Valid()
      reads this
    {
      isProcessing ==> started
    }

    constructor()
      ensures Valid()
      ensures !isProcessing && current == 0 && total == 0 && message == Preparing
      ensures !completed && error == None && !started && !cancelled
      ensures created == {} && outputFolder == "" && existing == {}
    {
      isProcessing, current, total, message := false, 0, 0, Preparing;
      completed, error, started, cancelled := false, None, false, false;
      created, outputFolder, existing := {}, "", {};
    }

    /**
     * `execute_image_processing` up to the start of the worker: ignored while
     * a run is started; otherwise the state is reset and the output listing
     * (`None` when the folder does not exist) is remembered.
     */
    method Execute(output: string, listing: Option<set<string>>) returns (accepted: bool)
      requires Valid()
      modifies this
      ensures Valid()
      ensures accepted == !old(started)
      ensures old(isProcessing) ==> !accepted
      ensures old(started) ==> unchanged(this)
      ensures accepted ==>
                started && isProcessing && current == 0 && total == 0 && message == Preparing &&
                !completed && error == None && !cancelled && created == {} &&
                outputFolder == output && existing == listing.GetOr({})
    {
      if started {
        accepted := false;
        return;
      }
      started := true;
      isProcessing, current, total, message := true, 0, 0, Preparing;
      completed, error, cancelled := false, None, false;
      created, outputFolder := {}, output;
      existing := listing.GetOr({});
      accepted := true;
    }

    /** `update_progress`, the batch's progress callback. */
    method UpdateProgress(p: Progress)
      requires Valid()
      modifies this
      ensures Valid()
      ensures current == p.current && total == p.total && message == p.message
      ensures isProcessing == old(isProcessing) && completed == old(completed) && error == old(error)
      ensures started == old(started) && cancelled == old(cancelled) && created == old(created)
      ensures outputFolder == old(outputFolder) && existing == old(existing)
    {
      current, total, message := p.current, p.total, p.message;
    }

    /** `on_cancel_click`. */
    method Cancel()
      requires Valid()
      modifies this
      ensures Valid()
      ensures cancelled && message == Cancelling
      ensures isProcessing == old(isProcessing) && current == old(current) && total == old(total)
      ensures completed == old(completed) && error == old(error) && started == old(started)
      ensures created == old(created) && outputFolder == old(outputFolder) && existing == old(existing)
    {
      cancelled := true;
      message := Cancelling;
    }

    /**
     * The end of `run_processing`. `failure` is the exception `process_images`
     * raised, if any; `compressFailure` the one compression would raise;
     * `after` the output listing afterwards (`None` when the folder does not
     * exist). The result says whether compression ran.
     */
    method Finish(failure: Option<Error>, compression: int, compressFailure: Option<Error>, after: Option<set<string>>)
      returns (compress: bool)
      requires Valid()
      modifies this
      ensures Valid()
      ensures compress <==> failure.None? && !cancelled && 0 < compression < 100
      ensures var raised := if failure.Some? then failure else if compress then compressFailure else None;
              completed == (old(completed) || (!cancelled && raised.None?)) &&
              error == (if raised.Some? && !cancelled then raised else old(error))
      ensures created == (if after.Some? then after.value - existing else old(created))
      ensures !isProcessing
      ensures current == old(current) && total == old(total) && message == old(message)
      ensures started == old(started) && cancelled == old(cancelled)
      ensures outputFolder == old(outputFolder) && existing == old(existing)
    {
      compress := false;
      if failure.Some? {
        if !cancelled {
          error := failure;
        }
      } else if !cancelled {
        if 0 < compression < 100 {
          compress := true;
          if compressFailure.Some? {
            error := compressFailure;
          } else {
            completed := true;
          }
        } else {
          completed := true;
        }
      }
      if after.Some? {
        created := after.value - existing;
      }
      isProcessing := false;
    }

    /**
     * One round of `progress_monitor_async`: once the worker has stopped and
     * the run was completed, failed or cancelled, the monitor reports it
     * (cancel first, then error, then success) and clears `started`;
     * otherwise it keeps waiting.
     */
    method Monitor() returns (report: Option<Report>)
      requires Valid()
      modifies this
      ensures Valid()
      ensures report.Some? <==> !old(isProcessing) && (old(completed) || old(error).Some? || old(cancelled))
      ensures report.None? ==> unchanged(this)
      ensures report.Some? ==>
                !started &&
                report.value == (if cancelled then CancelReport(created)
                                 else if error.Some? then ErrorReport(error.value)
                                 else SuccessReport)
      ensures isProcessing == old(isProcessing) && current == old(current) && total == old(total)
      ensures message == old(message) && completed == old(completed) && error == old(error)
      ensures cancelled == old(cancelled) && created == old(created)
      ensures outputFolder == old(outputFolder) && existing == old(existing)
    {
      if isProcessing || !(completed || error.Some? || cancelled) {
        report := None;
        return;
      }
      if cancelled {
        report := Some(CancelReport(created));
      } else if error.Some? {
        report := Some(ErrorReport(error.value));
      } else {
        report := Some(SuccessReport);
      }
      started := false;
    }
  }

  /**
   * Copies that overwrite nothing leave the folder holding exactly the names
   * it held and their targets, so the listing afterwards minus the listing
   * before is the set of targets, one per copy.
   */
  lemma CreatedAreTargets(existing: set<string>, out: Out)
    requires Extends(Out(existing, []), out)
    ensures out.names - existing == set i | 0 <= i < |out.copies| :: out.copies[i].target
    ensures |out.names - existing| == |out.copies|
  {
    assert out.copies[0..] == out.copies;
    NoOverwriteMeans(existing, out.copies);
    TargetCount(out.copies, |out.copies|);
  }

  /** Distinct targets: as many as there are copies. */
  lemma {:induction false} TargetCount(cs: seq<Copy>, n: nat)
    requires n <= |cs| && forall i, j :: 0 <= i < j < |cs| ==> cs[i].target != cs[j].target
    ensures |set i | 0 <= i < n :: cs[i].target| == n
  {
    if n > 0 {
      TargetCount(cs, n - 1);
      var before := set i | 0 <= i < n - 1 :: cs[i].target;
      assert (set i | 0 <= i < n :: cs[i].target) == before + {cs[n - 1].target};
      assert cs[n - 1].target !in before;
    }
  }

  /**
   * The files a batch creates, as `created_files` sees them when the listing
   * before the run is the batch's starting folder: exactly the targets of its
   * copies, none of them there before, one file per copy.
   */
  lemma ProcessCreated(folder: Folder, log: Option<seq<string>>, existing: set<string>, cfg: Config)
    ensures var r := Process(folder, log, existing, cfg);
            r.out.names - existing == (set i | 0 <= i < |r.out.copies| :: r.out.copies[i].target) &&
            |r.out.names - existing| == |r.out.copies|
  {
    var r := Process(folder, log, existing, cfg);
    if log.Some? {
      ProcessShape(folder, log, existing, cfg);
      CreatedAreTargets(existing, r.out);
    } else {
      assert r.out == Out(existing, []);
    }
  }
}
