/** The three verdicts of the governance pipeline and their order. */
module Verdicts {
  datatype Verdict = Allow | ApprovalRequired | Block {
    function Severity(): nat {
      match this
      case Allow => 0
      case ApprovalRequired => 1
      case Block => 2
    }
  }
}
