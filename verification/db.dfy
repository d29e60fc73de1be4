/** The enumerations and the job-application record of the database schema (types/db.ts). */
module Db {
  import opened Outcomes

  datatype JobStatus = Applied | Proposal | Interview | Offer | Rejected | NoAnswer

  datatype Platform = LinkedIn | Indeed | Wellfound | OtherPlatform

  /** Nullable in the schema: a job's work mode is an `Option<WorkMode>`. */
  datatype WorkMode = Remote | Hybrid | OnSite

  /** The string each status is stored and displayed as. */
  function StatusName(s: JobStatus): string {
    match s
    case Applied => "applied"
    case Proposal => "proposal"
    case Interview => "interview"
    case Offer => "offer"
    case Rejected => "rejected"
    case NoAnswer => "no_answer"
  }

  function PlatformName(p: Platform): string {
    match p
    case LinkedIn => "linkedin"
    case Indeed => "indeed"
    case Wellfound => "wellfound"
    case OtherPlatform => "other"
  }

  function WorkModeName(w: WorkMode): string {
    match w
    case Remote => "remote"
    case Hybrid => "hybrid"
    case OnSite => "on_site"
  }

  /** Distinct statuses are stored as distinct strings, so filtering by name is filtering by status. */
  lemma StatusNameInjective(a: JobStatus, b: JobStatus)
    ensures StatusName(a) == StatusName(b) <==> a == b
  {
  }

  /**
   * The columns of a `job_applications` row that the overdue sweep reads or
   * writes, plus the descriptive ones it must leave alone. Timestamps are
   * milliseconds since the epoch.
   */
  datatype JobApplication = JobApplication(
    id: string,
    userId: string,
    jobTitle: string,
    companyName: string,
    status: JobStatus,
    platform: Option<Platform>,
    workMode: Option<WorkMode>,
    notes: Option<string>,
    appliedAt: Option<int>,
    statusUpdatedAt: Option<int>)
}
