/** The failure-carrying values the script's steps produce. */
module Outcomes {

  datatype Option<T> = None | Some(value: T)

  /** Why a run of the splitter stops early. */
  datatype Failure =
    | DirectoryNotFound        // --datapath is not a directory
    | RatiosTooLarge           // train_pct + test_pct >= 1.0
    | CannotCreateDirectory    // os.makedirs raised
    | CopyFailed               // shutil.copy raised

  datatype Result<T> = Ok(value: T) | Err(error: Failure)
}
