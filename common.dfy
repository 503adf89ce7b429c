/** Failure-carrying values shared by the services, and the error texts they report. */
module Common {

  datatype Option<+T> = None | Some(value: T)

  /** The errors the services return. `Driver` stands for any error the database
      driver reports (a lost connection, a deadline, a duplicate key), with its text. */
  datatype Error =
    | InvalidId
    | TitleRequired
    | NoFieldsToUpdate
    | CredentialsRequired
    | UsernameTaken
    | InvalidCredentials
    | Driver(text: string)
  {
    /** The text `err.Error()` yields for this error. */
    function Message(): string
    {
      match this
      case InvalidId => "invalid id"
      case TitleRequired => "title required"
      case NoFieldsToUpdate => "no fields to update"
      case CredentialsRequired => "username and password required"
      case UsernameTaken => "username already exists"
      case InvalidCredentials => "invalid credentials"
      case Driver(text) => text
    }
  }

  /** A Go `(value, error)` pair in which every error path returns the zero value. */
  datatype Result<+T> = Ok(value: T) | Err(error: Error)
}
