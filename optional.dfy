/** The absent-or-present value used wherever the widgets test a field for truthiness. */
module Optional {

  datatype Option<+T> = None | Some(value: T)

  /** The values an option holds, as a sequence of length zero or one. */
  function ToSeq<T>(o: Option<T>): (s: seq<T>)
    ensures |s| <= 1
    ensures o.Some? <==> |s| == 1
    ensures o.Some? ==> s[0] == o.value
  {
    match o
    case None => []
    case Some(v) => [v]
  }
}
