/**
 * The extension methods of `GenericExtensionMethods.cs`: `UnwindException`,
 * which renders an exception and its whole `InnerException` chain, and
 * `IsNull`. A `null` reference and a `Nullable<T>` without a value are
 * both `None`.
 */
module GenericExtensions {
  import opened Wrappers
  import opened Exceptions

  /** `Environment.NewLine` on the platform the queue runs on. */
  const NewLine: string := "\n"

  /** The text one link of the chain contributes: its message, then its stack trace. */
  function Segment(e: Exception): string {
    NewLine + "Message: " + e.message + NewLine + "Stacktrace: " + e.stackTrace
  }

  /**
   * `UnwindException`: "" for `null`, otherwise this exception's segment
   * followed by the unwinding of its inner exception. The recursion goes
   * down the finite inner-exception chain.
   */
  function UnwindException(ex: Option<Exception>): (r: string)
    ensures ex.None? <==> r == ""
    ensures ex.Some? ==> |r| >= |Segment(ex.value)| && r[..|Segment(ex.value)|] == Segment(ex.value)
    decreases ex
  {
    match ex
    case None => ""
    case Some(e) => Segment(e) + UnwindException(e.inner)
  }

  /** The segments of `chain` written one after another, built from the end. */
  function Segments(chain: seq<Exception>): string {
    if |chain| == 0 then "" else Segments(chain[..|chain| - 1]) + Segment(chain[|chain| - 1])
  }

  /** Writing a segment in front of a run of segments. */
  lemma {:induction false} SegmentsCons(e: Exception, chain: seq<Exception>)
    ensures Segments([e] + chain) == Segment(e) + Segments(chain)
    decreases |chain|
  {
    if |chain| == 0 {
      assert [e] + chain == [e];
      assert [e][..0] == [];
    } else {
      var last := chain[|chain| - 1];
      var init := chain[..|chain| - 1];
      assert ([e] + chain)[..|chain|] == [e] + init;
      SegmentsCons(e, init);
    }
  }

  /**
   * The unwound text is exactly one Message/Stacktrace segment per link of
   * the chain, outermost exception first.
   */
  lemma {:induction false} UnwindChain(ex: Option<Exception>)
    ensures UnwindException(ex) == Segments(Chain(ex))
    decreases ex
  {
    match ex
    case None =>
    case Some(e) =>
      UnwindChain(e.inner);
      SegmentsCons(e, Chain(e.inner));
  }

  /** `IsNull`: true for a null reference or a `Nullable<T>` holding no value, false for any value. */
  function IsNull<T(!new)>(value: Option<T>): (r: bool)
    ensures r <==> forall x: T :: value != Some(x)
  {
    value.None?
  }
}
