/** An optional value. `None` stands for the JavaScript values `undefined` and
    `NaN` where the carousel code reads past the end of an array or carries a
    missing number through arithmetic. */
module Options {

  datatype Option<T> = None | Some(value: T)

}
