/**
 * CustomStack.java: java.util.Stack extended with `peekPeek`, a look at the
 * element just below the top. The inherited vector is the field `elements`,
 * bottom first, so the top is its last element.
 */
module Stacks {
  import opened Wrappers

  /** java.util.EmptyStackException. */
  datatype StackError = EmptyStackException

  class CustomStack<E> {
    var elements: seq<E>

    constructor()
      ensures elements == []
    {
      elements := [];
    }

    /** `size()`. */
    function Size(): nat
      reads this
    {
      |elements|
    }

    /** The inherited `push`: the new element becomes the top. */
    method Push(x: E)
      modifies this
      ensures elements == old(elements) + [x]
    {
      elements := elements + [x];
    }

    /** The inherited `peek`: the top, or EmptyStackException on an empty stack. */
    method Peek() returns (r: Result<E, StackError>)
      ensures r.Ok? <==> |elements| >= 1
      ensures r.Ok? ==> r.value == elements[|elements| - 1]
    {
      if |elements| == 0 {
        return Err(EmptyStackException);
      }
      return Ok(elements[|elements| - 1]);
    }

    /** `peekPeek`: the element at index size - 2, or EmptyStackException when the size is 0 or 1. */
    method PeekPeek() returns (r: Result<E, StackError>)
      ensures r.Ok? <==> |elements| >= 2
      ensures r.Ok? ==> r.value == elements[|elements| - 2]
    {
      var len := |elements|;
      if len == 0 || len == 1 {
        return Err(EmptyStackException);
      }
      return Ok(elements[len - 2]);
    }
  }

  /** After push(a) and push(b) on a new stack, `peekPeek` sees a and `peek` sees b. */
  method PushTwiceThenPeek<E>(a: E, b: E) returns (below: Result<E, StackError>, top: Result<E, StackError>)
    ensures below == Ok(a) && top == Ok(b)
  {
    var s := new CustomStack<E>();
    s.Push(a);
    s.Push(b);
    below := s.PeekPeek();
    top := s.Peek();
  }

  /** A stack holding a single element still makes `peekPeek` throw, while `peek` succeeds. */
  method PushOnceThenPeek<E>(a: E) returns (below: Result<E, StackError>, top: Result<E, StackError>)
    ensures below == Err(EmptyStackException) && top == Ok(a)
  {
    var s := new CustomStack<E>();
    s.Push(a);
    below := s.PeekPeek();
    top := s.Peek();
    assert below.error == EmptyStackException;
  }
}
