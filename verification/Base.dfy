// Shared by all modules.
module Base {
  datatype Option<+T> = None | Some(value: T)

  // What becomes of one statement sent to the database: it is carried out and answered,
  // carried out with the answer lost, or not carried out. In the last two cases the caller
  // sees an error.
  datatype Fate = Answered | AnswerLost | NotExecuted
}
