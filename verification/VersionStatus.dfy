/** The status of a model version. */
module VersionStatus {

  /** ModelVersionState, with the order of its numeric values. */
  datatype VersionState = START | LOADING | AVAILABLE | UNLOADING | END {
    function Value(): int {
      match this
      case START => 10
      case LOADING => 20
      case AVAILABLE => 30
      case UNLOADING => 40
      case END => 50
    }
  }

  /** failed stands for the error code UNKNOWN. */
  datatype Status = Status(state: VersionState, failed: bool) {

    predicate WillEndUnloaded() {
      UNLOADING.Value() <= state.Value()
    }

    predicate IsFailedLoading() {
      state == LOADING && failed
    }
  }
}
