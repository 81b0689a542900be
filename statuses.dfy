/** The canonical CTRF test states and `mapStatus`, which sends a Jest status to one of them. */
module Statuses {

  /** `CtrfTestState` */
  datatype CtrfTestState = Passed | Failed | Skipped | Pending | Other

  /** The string the CTRF report uses for each state. */
  function StateName(st: CtrfTestState): string {
    match st
    case Passed => "passed"
    case Failed => "failed"
    case Skipped => "skipped"
    case Pending => "pending"
    case Other => "other"
  }

  /** `mapStatus`: a switch with a default arm over the Jest status string
      (`todo`, `disabled`, `focused` and every unknown value fall to `other`). */
  function MapStatus(jestStatus: string): (st: CtrfTestState)
    ensures st == Passed <==> jestStatus == "passed"
    ensures st == Failed <==> jestStatus == "failed"
    ensures st == Skipped <==> jestStatus == "skipped"
    ensures st == Pending <==> jestStatus == "pending"
    ensures st == Other <==> jestStatus !in {"passed", "failed", "skipped", "pending"}
  {
    match jestStatus
    case "passed" => Passed
    case "failed" => Failed
    case "skipped" => Skipped
    case "pending" => Pending
    case _ => Other
  }

  /** Every canonical state is reached from its own name. */
  lemma MapStatusOfName(st: CtrfTestState)
    ensures MapStatus(StateName(st)) == st
  {
    match st
    case Passed =>
    case Failed =>
    case Skipped =>
    case Pending =>
    case Other => assert StateName(Other) !in {"passed", "failed", "skipped", "pending"};
  }

  /** A Jest status survives the mapping unchanged exactly when it already is a
      canonical name; every other status is reported as `other`. */
  lemma MapStatusKeepsCanonicalNames(jestStatus: string)
    ensures StateName(MapStatus(jestStatus)) == jestStatus
        <==> jestStatus in {"passed", "failed", "skipped", "pending", "other"}
  {
    if jestStatus == "other" {
      assert MapStatus("other") == Other;
    }
  }

  /** The three remaining members of Jest's `Status` union are all `other`. */
  lemma JestOnlyStatusesAreOther()
    ensures MapStatus("todo") == Other
    ensures MapStatus("disabled") == Other
    ensures MapStatus("focused") == Other
  {
  }
}
