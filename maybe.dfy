/** The optional value the model uses for JavaScript's `null`, `undefined` and `NaN` results. */
module Maybe {

  datatype Option<+T> = None | Some(value: T)
}
