/** Stock types used across the project. */
module Prelude {

  datatype Option<+T> = None | Some(value: T)

  datatype Result<+T, +E> = Ok(value: T) | Err(error: E) {

    predicate IsFailure() {
      Err?
    }

    function PropagateFailure<U>(): Result<U, E>
      requires Err?
    {
      Err(error)
    }

    function Extract(): T
      requires Ok?
    {
      value
    }
  }

  /** The entry std::map iteration comes to next, given the keys it has not come to yet. */
  method Next(ghost all: set<nat>, left: set<nat>) returns (id: nat, left': set<nat>)
    requires left != {} && left <= all
    ensures id in left && (forall j | j in left :: id <= j) && left' == left - {id} && left' < left
    ensures all - left' == all - left + {id}
  {
    HasLeast(left);
    id :| id in left && forall j | j in left :: id <= j;
    left' := left - {id};
  }

  lemma HasLeast(s: set<nat>)
    requires s != {}
    ensures exists k :: k in s && forall j | j in s :: k <= j
  {
    var k :| k in s;
    LeastUpTo(s, k);
  }

  lemma LeastUpTo(s: set<nat>, k: nat)
    requires k in s
    ensures exists least :: least in s && forall j | j in s :: least <= j
  {
    if j :| j in s && j < k {
      LeastUpTo(s, j);
    } else {
      assert k in s && forall j | j in s :: k <= j;
    }
  }
}
