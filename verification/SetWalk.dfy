/** Walking over a set one element at a time, as the loops over unordered containers do. */
module SetWalk {

  lemma MoveOne<T>(all: set<T>, done: set<T>, rest: set<T>, x: T)
    requires done !! rest && done + rest == all && x in rest
    ensures done + {x} !! rest - {x} && (done + {x}) + (rest - {x}) == all
  {
  }
}
