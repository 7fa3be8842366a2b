/** What every queue of the pipeline promises: values leave in the order they entered. */
module Fifo {

  datatype Fifo<T> = Fifo(pushed: seq<T>, popped: nat) {
    ghost predicate Valid() { popped <= |pushed| }

    function Push(x: T): Fifo<T> { Fifo(pushed + [x], popped) }

    function Pop(): Fifo<T>
      requires popped < |pushed|
    {
      Fifo(pushed, popped + 1)
    }
  }

  function Empty<T>(): Fifo<T> { Fifo([], 0) }
}
