/** The aggregate status of the page-job executor: a closed variant of four cases. */
module States {

  /** `NotStarted`, `Loading` and `Loaded` carry nothing; `Failed` carries the cause of the
      failure that ended a burst of jobs. `C` stands for the failure type (a Throwable). */
  datatype State<C> = NotStarted | Loading | Loaded | Failed(cause: C)

  /** Every status is one of the four cases: the variant is closed. */
  lemma ClosedSet<C>(s: State<C>)
    ensures s == NotStarted || s == Loading || s == Loaded || s == Failed(s.cause)
  {
  }

  /** The payload-free cases are singletons: two values of the same payload-free case are equal. */
  lemma PayloadFreeSingletons<C>(s: State<C>, t: State<C>)
    ensures (s.NotStarted? && t.NotStarted?) ==> s == t
    ensures (s.Loading? && t.Loading?) ==> s == t
    ensures (s.Loaded? && t.Loaded?) ==> s == t
  {
  }

  /** `Failed(c)` is a failure, and reading its cause gives back `c`. */
  lemma FailedCarriesCause<C>(c: C)
    ensures Failed(c).Failed? && Failed(c).cause == c
  {
  }

  /** The four cases are pairwise distinct; a failure never equals a payload-free case. */
  lemma CasesDistinct<C>(c: C)
    ensures State<C>.NotStarted != State<C>.Loading && State<C>.NotStarted != State<C>.Loaded
    ensures State<C>.Loading != State<C>.Loaded
    ensures Failed(c) != NotStarted && Failed(c) != Loading && Failed(c) != Loaded
  {
  }
}
