/**
 * The part of `java.util.Stack` that ExpressionResolver.java uses: `push`,
 * `pop` and `empty`.  The top of the stack is the last element of `items`,
 * as in the `Vector` underneath the Java class.
 */
module Stacks {
  import opened Wrappers

  class Stack<T> {
    var items: seq<T>

    /** `new Stack<>()` */
    constructor()
      ensures items == []
    {
      items := [];
    }

    method Push(x: T)
      modifies this
      ensures items == old(items) + [x]
    {
      items := items + [x];
    }

    /** Removes and returns the top; `None` is the `EmptyStackException`
        thrown on an empty stack, which leaves the stack as it was. */
    method Pop() returns (r: Option<T>)
      modifies this
      ensures old(items) == [] ==> r == None && items == []
      ensures old(items) != [] ==> r == Some(old(items)[|old(items)| - 1]) && items == old(items)[..|old(items)| - 1]
      ensures old(items) == items + (if r.Some? then [r.value] else [])
    {
      if items == [] {
        r := None;
      } else {
        r := Some(items[|items| - 1]);
        items := items[..|items| - 1];
      }
    }

    method Empty() returns (b: bool)
      ensures b <==> items == []
    {
      b := items == [];
    }
  }
}
