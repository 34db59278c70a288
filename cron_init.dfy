/** The cron latch: the module-level job that runs the event sweep every minute, started at
    most once and cleared when stopped. A tick of the scheduler is one call of the sweep. */
module CronInit {
  import opened Schema
  import opened ProcessEvents

  /** A job handed out by the scheduler; once stopped it no longer runs. */
  class ScheduledJob {
    var stopped: bool

    constructor ()
      ensures !stopped
    {
      stopped := false;
    }

    method Stop()
      modifies this
      ensures stopped
    {
      stopped := true;
    }
  }

  /** The `cronJob` variable, `null` until the first initialization. */
  class CronJobs {
    var cronJob: ScheduledJob?

    /** A job that is held has not been stopped. */
    ghost predicate Valid()
      reads this, cronJob
    {
      cronJob != null ==> !cronJob.stopped
    }

    constructor ()
      ensures Valid() && cronJob == null
    {
      cronJob := null;
    }

    /** `initializeCronJobs`: with a job already held nothing happens; otherwise a new job is
        scheduled and one sweep runs at once. */
    method InitializeCronJobs(db: Database, now: int, f: SweepFaults) returns (started: bool)
      requires Valid() && db.Valid()
      modifies this, db`events, db`notifications, db`nextNotificationId
      ensures Valid() && db.Valid()
      ensures started <==> old(cronJob) == null
      ensures !started ==> cronJob == old(cronJob) && unchanged(db)
      ensures started ==> cronJob != null && fresh(cronJob) && Swept(db, now, f)
    {
      if cronJob != null {
        return false;
      }
      cronJob := new ScheduledJob();
      var _ := ProcessSystemEvents(db, now, f);
      started := true;
    }

    /** `stopCronJobs`: stops the held job, if any, and clears the latch, so a later
        initialization schedules a job again. */
    method StopCronJobs()
      requires Valid()
      modifies this, cronJob
      ensures Valid() && cronJob == null
      ensures old(cronJob) != null ==> old(cronJob).stopped
    {
      if cronJob != null {
        cronJob.Stop();
        cronJob := null;
      }
    }

    /** A minute passes: the held job, if any, runs one sweep. */
    method Tick(db: Database, now: int, f: SweepFaults) returns (ran: bool)
      requires Valid() && db.Valid()
      modifies db`events, db`notifications, db`nextNotificationId
      ensures Valid() && db.Valid()
      ensures ran <==> cronJob != null
      ensures !ran ==> unchanged(db)
      ensures ran ==> Swept(db, now, f)
    {
      ran := cronJob != null;
      if ran {
        var _ := ProcessSystemEvents(db, now, f);
      }
    }
  }
}
