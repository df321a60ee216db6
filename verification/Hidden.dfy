/** Facts behind a name. A definition of the form
      forall t {:trigger Shown(t)} :: Shown(t) ==> body
    is the body, but the solver looks inside only where Shown is mentioned; a function that gives Some
    exactly when the fact holds keeps callers from unfolding it. Lemmas that say `assert Shown(0)` see
    what is behind a fact, all others pass it on by name. Large facts stay cheap to carry that way. */
module Hidden {

  datatype Option<T> = None | Some(value: T)

  predicate Shown(t: int) {
    true
  }
}
