/** An optional value: the model's stand-in for JavaScript's `null`,
    `undefined` and `NaN` where the dashboard tests for them. */
module Options {

  datatype Option<+T> = None | Some(value: T)
}
