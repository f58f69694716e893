/**
What a child process reports to its parent while its output is being read.
*/
module ChildOutput {
  /** `Timeout` is the parent's own timer; `Close` follows the last output of the child. */
  datatype Event = Data(chunk: string) | Timeout | Error | Close(code: int, killed: bool)

  /** All output so far, whatever the chunks were. */
  function Text(es: seq<Event>): string {
    if es == [] then ""
    else
      var e := es[|es| - 1];
      Text(es[..|es| - 1]) + if e.Data? then e.chunk else ""
  }

  predicate OnlyData(es: seq<Event>) {
    forall e | e in es :: e.Data?
  }

  /** Nothing follows the child's close event. */
  predicate ClosesLast(es: seq<Event>) {
    forall k | 0 <= k < |es| - 1 :: !es[k].Close?
  }
}
