/** Failure values shared by the ordering core. */
module Common {

  /** The one error the ordering core can raise: `datetime.strptime` refusing the
      digits of a stem that matched the timestamp pattern (a ValueError). */
  datatype Error = StrptimeValueError(stem: string)

  datatype Result<+T> = Ok(value: T) | Err(error: Error)

  datatype Option<+T> = None | Some(value: T)
}
