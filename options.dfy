/** The optional value used where the service keeps a sentinel. */
module Options {

  /** `None` stands for "nothing observed yet" (the service's +infinity sell price). */
  datatype Option<+T> = None | Some(value: T)
}
