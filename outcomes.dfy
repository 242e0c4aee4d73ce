/** Optional values, and the exceptions of the services as error values. */
module Outcomes {

  /** A value that may be absent; `None` stands for a Java `null` return. */
  datatype Option<+T> = None | Some(value: T)

  /** The exceptions the services throw, one constructor each. */
  datatype Error =
    | EmployeeNotFound(employeeId: int)          // EmployeeNotFoundException(int)
    | EmployeeUsernameNotFound(username: string) // EmployeeNotFoundException(String)
    | PunchNotFound(punchId: int)                // PunchNotFoundException
    | EmployeePunchAlreadyExists(time: int, employeeId: int) // EmployeePunchAlreadyExistsException
    | IndexOutOfBounds                           // List.get on an index the list does not have

  /** The outcome of an operation that either returns a value or throws. */
  datatype Result<+T> = Success(value: T) | Failure(error: Error)
}
