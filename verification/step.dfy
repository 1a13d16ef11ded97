/** Step.java: an immutable record of one integration step. */
module Steps {
  datatype Step<T> = Step(time: real, pos: T, vel: T, acc: T)
}
