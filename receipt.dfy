/**
 * `SolarNodeImageReceiptFuture`: the receipt handed out for an image
 * customisation task. It pairs the task's future with the step tracker
 * the task drives; everything about progress is read from that tracker.
 */
module Receipts {
  import opened Common
  import opened StepTracker
  import opened S3Image
  import opened S3Repository

  /** Where the submitted task stands: still pending, cancelled, or finished with an image or an exception. */
  datatype Outcome = Pending | Cancelled | Completed(image: S3SolarNodeImage) | Failed(cause: Failure)

  /** `Throwable.toString()`: the class name, then ": " and the message when there is one. */
  function Describe(f: Failure): (s: string)
    ensures StartsWith(s, f.className)
    ensures f.message.None? ==> s == f.className
  {
    f.className + (if f.message.Some? then ": " + f.message.value else "")
  }

  /** The `Future` of the submitted task. */
  class Task {
    var outcome: Outcome

    constructor ()
      ensures outcome == Pending
    {
      outcome := Pending;
    }

    /** `isDone()`: finished normally, exceptionally or by cancellation. */
    function IsDone(): bool
      reads this
    {
      !outcome.Pending?
    }

    /** `cancel(true)`: only a pending task can be cancelled. */
    method Cancel() returns (cancelled: bool)
      modifies this
      ensures cancelled <==> old(outcome).Pending?
      ensures outcome == if cancelled then Cancelled else old(outcome)
      ensures IsDone()
    {
      cancelled := outcome.Pending?;
      if cancelled {
        outcome := Cancelled;
      }
    }

    /** The executor running the task to its end; a cancelled task's result is discarded. */
    method Finish(result: Result<S3SolarNodeImage>)
      modifies this
      ensures old(outcome).Pending? && result.Ok? ==> outcome == Completed(result.value)
      ensures old(outcome).Pending? && result.Err? ==> outcome == Failed(result.error)
      ensures !old(outcome).Pending? ==> outcome == old(outcome)
    {
      if outcome.Pending? {
        outcome := if result.Ok? then Completed(result.value) else Failed(result.error);
      }
    }
  }

  /**
   * What `get()` yields for a finished task: the image, a
   * CancellationException without a message, or an ExecutionException
   * whose message is the cause's `toString()`.
   */
  function Reported(o: Outcome): (r: Result<S3SolarNodeImage>)
    requires !o.Pending?
    ensures r.Ok? <==> o.Completed?
    ensures o.Completed? ==> r.value == o.image
    ensures o.Cancelled? ==> r.error.className == "CancellationException" && r.error.message.None?
    ensures o.Failed? ==> r.error.className == "ExecutionException" && r.error.message == Some(Describe(o.cause))
  {
    match o
    case Completed(image) => Ok(image)
    case Cancelled => Err(Failure("CancellationException", None))
    case Failed(cause) => Err(Failure("ExecutionException", Some(Describe(cause))))
  }

  class SolarNodeImageReceiptFuture {
    const createdDate: int
    const id: string
    const baseImageId: string
    const task: Task
    const tracker: TaskStepTracker
    /**
     * The repository the service's receipts take download links from;
     * `None` is the base class, whose hook yields no link.
     */
    const repository: Option<S3NodeImageRepository>

    /** The constructor: the creation time (ms) is read once, here. */
    constructor (now: int, id: string, baseImageId: string, task: Task, tracker: TaskStepTracker,
                 repository: Option<S3NodeImageRepository>)
      ensures createdDate == now && this.id == id && this.baseImageId == baseImageId
      ensures this.task == task && this.tracker == tracker && this.repository == repository
    {
      createdDate := now;
      this.id := id;
      this.baseImageId := baseImageId;
      this.task := task;
      this.tracker := tracker;
      this.repository := repository;
    }

    function IsDone(): bool
      reads this, task
    {
      task.IsDone()
    }

    function IsCancelled(): bool
      reads this, task
    {
      task.outcome.Cancelled?
    }

    /** `cancel(mayInterrupt)`, delegated to the future. */
    method Cancel() returns (cancelled: bool)
      modifies task
      ensures cancelled <==> old(task.outcome).Pending?
      ensures task.outcome == if cancelled then Cancelled else old(task.outcome)
    {
      cancelled := task.Cancel();
    }

    /** `getMessage()`, `isStarted()`, `getStartedDate()` and `getCompletedDate()` read the shared tracker. */
    function GetMessage(): Option<string>
      reads this, tracker
    {
      tracker.message
    }

    function IsStarted(): bool
      reads this, tracker
    {
      tracker.IsStarted()
    }

    function GetStartedDate(): Option<int>
      reads this, tracker
    {
      tracker.startedDate
    }

    function GetCompletedDate(): Option<int>
      reads this, tracker
    {
      tracker.completedDate
    }

    /** `getPercentComplete()`: the tracker's overall value, within [0, 1] while its fraction is. */
    function GetPercentComplete(): (r: real)
      requires tracker.Valid()
      reads this, tracker
      ensures InUnit(tracker.stepPercentComplete) ==> InUnit(r)
    {
      OverallInUnitOf(tracker.State());
      Overall(tracker.State())
    }

    /**
     * `getImageInfo()`: nothing while the task runs; the image once it
     * succeeded; after a failure or cancellation, nothing, and the
     * exception's message is written to the tracker.
     */
    method GetImageInfo() returns (r: Option<S3SolarNodeImage>)
      modifies tracker
      ensures r.Some? <==> task.outcome.Completed?
      ensures r.Some? ==> r.value == task.outcome.image
      ensures task.outcome.Pending? || task.outcome.Completed? ==> tracker.message == old(tracker.message)
      ensures IsDone() && !task.outcome.Completed? ==> tracker.message == Reported(task.outcome).error.message
      ensures tracker.State() == old(tracker.State())
      ensures tracker.startedDate == old(tracker.startedDate) && tracker.completedDate == old(tracker.completedDate)
    {
      if task.IsDone() {
        var got := Reported(task.outcome);
        if got.Ok? {
          return Some(got.value);
        }
        tracker.SetMessage(got.error.message);
      }
      return None;
    }

    /**
     * `getDownloadUrl()`: no link unless the task is done, not cancelled
     * and reports full completion; then the hook's link for the image, or a
     * RuntimeException wrapping the exception `get()` raised.
     */
    method GetDownloadUrl(now: int) returns (r: Result<Option<PresignedUrl>>)
      requires tracker.Valid()
      ensures !IsDone() || IsCancelled() || GetPercentComplete() < 1.0 ==> r == Ok(None)
      ensures r.Ok? && r.value.Some? ==>
                IsDone() && !IsCancelled() && GetPercentComplete() >= 1.0 &&
                task.outcome.Completed? && repository.Some? &&
                r.value.value == repository.value.GetDownloadUrl(task.outcome.image.id, now)
      ensures IsDone() && !IsCancelled() && GetPercentComplete() >= 1.0 ==>
                match task.outcome
                case Completed(image) =>
                  r == Ok(if repository.Some? then Some(repository.value.GetDownloadUrl(image.id, now)) else None)
                case Failed(cause) =>
                  r == Err(Failure("RuntimeException", Some(Describe(Failure("ExecutionException", Some(Describe(cause)))))))
                case _ => false
    {
      if !task.IsDone() || task.outcome.Cancelled? || GetPercentComplete() < 1.0 {
        return Ok(None);
      }
      var got := Reported(task.outcome);
      if got.Err? {
        return Err(Failure("RuntimeException", Some(Describe(got.error))));
      }
      if repository.None? {
        return Ok(None);
      }
      return Ok(Some(repository.value.GetDownloadUrl(got.value.id, now)));
    }
  }

  /** The overall value lies in [0, 1] whenever the fraction does. */
  lemma OverallInUnitOf(p: Progress)
    requires WellFormed(p)
    ensures InUnit(p.stepPercent) ==> InUnit(Overall(p))
  {
    if InUnit(p.stepPercent) {
      OverallInUnit(p);
    }
  }
}
