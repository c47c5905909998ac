/** An optional value: used for "no message was dequeued" and "the LEDs were never written". */
module Options {

  datatype Option<+T> = None | Some(value: T)
}
