/** Values shared by the whole model: optional values, the run-time errors the
    script can raise, and a result that carries either a value or such an error. */
module Common {

  datatype Option<+T> = None | Some(value: T)

  /** The uncaught Python exceptions of the script, each named after the
      expression that raises it. Any of them ends the whole run. */
  datatype Failure =
    | ArgumentMissing(position: nat)    // sys.argv[position] raises IndexError
    | EmptyCsvRow                       // dest_name[0] on a blank CSV line raises IndexError
    | NoDistanceToken                   // distance.split()[0] on blank distance text raises IndexError
    | NoDurationToken(position: nat)    // t_split[position] raises IndexError
    | NotAnInteger(token: string)       // int(token) raises ValueError
    | TripFieldMissing                  // a lookup inside the trip block raises NoSuchElementException

  datatype Result<+T> = Ok(value: T) | Err(error: Failure)
}
