/** The exceptions the Python analyzers can end with, and `sys.exit`. */
module PyErrors {
  datatype PyError =
    | ValueError
    | IndexError
    | ZeroDivisionError
    | StatisticsError
    | UnboundLocalError
    | SystemExit(status: int)
}
