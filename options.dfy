/** A nullable value: `Null` stands for the C# `null` reference. */
module Options {

  datatype Option<T> = Null | Some(value: T)

  /** The zero- or one-element sequence holding the value, if any. */
  function ToSeq<T>(o: Option<T>): (s: seq<T>)
    ensures |s| == if o.Some? then 1 else 0
    ensures o.Some? ==> s[0] == o.value
  {
    if o.Some? then [o.value] else []
  }
}
