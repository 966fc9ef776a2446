/** An optional value; stands for a nullable reference such as `Question?`. */
module Optional {

  datatype Option<T> = None | Some(value: T)
}
