// The aggregate responses that the HTTP and stdio hosts merge when several language handlers
// answer one request: quick-fix lists are concatenated, fix-all results keep the last one.
module Responses {
  import opened Wrappers

  // ----- QuickFixResponse -----

  /**
   * `QuickFixResponse`; `quickFixes` is `None` when the settable property was set to null.
   * The quick-fix type itself is a parameter of the model.
   */
  datatype QuickFixResponse<QuickFix> = QuickFixResponse(quickFixes: Option<seq<QuickFix>>)

  /** `new QuickFixResponse()`: an empty list of fixes. */
  function EmptyQuickFixResponse<QuickFix>(): (r: QuickFixResponse<QuickFix>)
    ensures r.quickFixes == Some([])
  {
    QuickFixResponse(Some([]))
  }

  /**
   * `Merge(response)`: a null argument throws `ArgumentNullException`, and so does `Concat`
   * when either list is null; otherwise a new response with the receiver's fixes, then the argument's.
   */
  function Merge<QuickFix>(receiver: QuickFixResponse<QuickFix>, response: Option<QuickFixResponse<QuickFix>>)
    : (r: Result<QuickFixResponse<QuickFix>>)
    ensures response.None? ==> r == Throws(ArgumentNullException)
    ensures r.Throws? ==> r.exception == ArgumentNullException
    ensures r.Ok? <==> response.Some? && receiver.quickFixes.Some? && response.value.quickFixes.Some?
    ensures r.Ok? ==> (r.value.quickFixes.Some?
      && |r.value.quickFixes.value| == |receiver.quickFixes.value| + |response.value.quickFixes.value|
      && r.value.quickFixes.value[..|receiver.quickFixes.value|] == receiver.quickFixes.value
      && r.value.quickFixes.value[|receiver.quickFixes.value|..] == response.value.quickFixes.value)
  {
    if response.None? then Throws(ArgumentNullException)
    else if receiver.quickFixes.None? || response.value.quickFixes.None? then Throws(ArgumentNullException)
    else Ok(QuickFixResponse(Some(receiver.quickFixes.value + response.value.quickFixes.value)))
  }

  /** The empty response is an identity for `Merge` on both sides. */
  lemma EmptyIsIdentity<QuickFix>(x: QuickFixResponse<QuickFix>)
    requires x.quickFixes.Some?
    ensures Merge(EmptyQuickFixResponse(), Some(x)) == Ok(x)
    ensures Merge(x, Some(EmptyQuickFixResponse())) == Ok(x)
  {
    assert [] + x.quickFixes.value == x.quickFixes.value;
    assert x.quickFixes.value + [] == x.quickFixes.value;
  }

  /** Merging is associative: the grouping of the handlers' answers does not matter. */
  lemma MergeAssociative<QuickFix>(a: QuickFixResponse<QuickFix>, b: QuickFixResponse<QuickFix>,
                                   c: QuickFixResponse<QuickFix>)
    requires a.quickFixes.Some? && b.quickFixes.Some? && c.quickFixes.Some?
    ensures Merge(a, Some(b)).Ok? && Merge(b, Some(c)).Ok?
    ensures Merge(Merge(a, Some(b)).value, Some(c)) == Merge(a, Some(Merge(b, Some(c)).value))
  {
    assert (a.quickFixes.value + b.quickFixes.value) + c.quickFixes.value
        == a.quickFixes.value + (b.quickFixes.value + c.quickFixes.value);
  }

  /** Merging in either order gives the same fixes, only in another order. */
  lemma MergeCommutesUpToOrder<QuickFix>(a: QuickFixResponse<QuickFix>, b: QuickFixResponse<QuickFix>)
    requires a.quickFixes.Some? && b.quickFixes.Some?
    ensures multiset(Merge(a, Some(b)).value.quickFixes.value) == multiset(Merge(b, Some(a)).value.quickFixes.value)
  {
  }

  /** The fixes of a list of responses, one response after the other. */
  function AllFixes<QuickFix>(responses: seq<seq<QuickFix>>): seq<QuickFix> {
    if responses == [] then [] else responses[0] + AllFixes(responses[1..])
  }

  /** Folding `Merge` over responses, as the host aggregates them, concatenates their fixes in order. */
  function MergeAll<QuickFix>(acc: QuickFixResponse<QuickFix>, responses: seq<seq<QuickFix>>)
    : (r: Result<QuickFixResponse<QuickFix>>)
    requires acc.quickFixes.Some?
    ensures r.Ok? && r.value.quickFixes == Some(acc.quickFixes.value + AllFixes(responses))
    decreases |responses|
  {
    if responses == [] then
      assert acc.quickFixes.value + [] == acc.quickFixes.value;
      Ok(acc)
    else
      var next := Merge(acc, Some(QuickFixResponse(Some(responses[0])))).value;
      var r := MergeAll(next, responses[1..]);
      assert acc.quickFixes.value + responses[0] + AllFixes(responses[1..])
          == acc.quickFixes.value + (responses[0] + AllFixes(responses[1..]));
      r
  }

  function SumOfLengths<QuickFix>(responses: seq<seq<QuickFix>>): nat {
    if responses == [] then 0 else |responses[0]| + SumOfLengths(responses[1..])
  }

  /** The merged list holds every fix, as often as the responses together hold it. */
  lemma {:induction false} MergedCount<QuickFix>(responses: seq<seq<QuickFix>>)
    ensures |AllFixes(responses)| == SumOfLengths(responses)
    ensures forall i :: 0 <= i < |responses| ==> multiset(responses[i]) <= multiset(AllFixes(responses))
    decreases |responses|
  {
    if responses != [] {
      var rest := responses[1..];
      MergedCount(rest);
      forall i | 1 <= i < |responses|
        ensures multiset(responses[i]) <= multiset(AllFixes(responses))
      {
        assert responses[i] == rest[i - 1];
      }
    }
  }

  /** Reordering the responses reorders the merged fixes, and keeps them all. */
  lemma {:induction false} MergedFixesOfAppend<QuickFix>(xs: seq<seq<QuickFix>>, ys: seq<seq<QuickFix>>)
    ensures AllFixes(xs + ys) == AllFixes(xs) + AllFixes(ys)
    decreases |xs|
  {
    if xs == [] {
      assert xs + ys == ys;
    } else {
      assert (xs + ys)[0] == xs[0] && (xs + ys)[1..] == xs[1..] + ys;
      MergedFixesOfAppend(xs[1..], ys);
    }
  }

  /** Merging two groups of responses in either order gives the same fixes. */
  lemma MergedGroupsCommute<QuickFix>(xs: seq<seq<QuickFix>>, ys: seq<seq<QuickFix>>)
    ensures multiset(AllFixes(xs + ys)) == multiset(AllFixes(ys + xs))
  {
    MergedFixesOfAppend(xs, ys);
    MergedFixesOfAppend(ys, xs);
  }

  // ----- RunFixAllResponse -----

  /** `RunFixAllResponse`, with its settable list of file changes. */
  datatype RunFixAllResponse<FileOperation> = RunFixAllResponse(changes: Option<seq<FileOperation>>)

  /** `new RunFixAllResponse()`: no changes. */
  function EmptyRunFixAllResponse<FileOperation>(): (r: RunFixAllResponse<FileOperation>)
    ensures r.changes == Some([])
  {
    RunFixAllResponse(Some([]))
  }

  /** `Merge(response)`: the argument, null included; the receiver's changes are dropped. */
  function MergeFixAll<FileOperation>(receiver: RunFixAllResponse<FileOperation>,
                                      response: Option<RunFixAllResponse<FileOperation>>)
    : (r: Option<RunFixAllResponse<FileOperation>>)
    ensures r == response
  {
    response
  }

  /** Folding `Merge` over the handlers' responses from the first one. */
  function FoldFixAll<FileOperation>(first: RunFixAllResponse<FileOperation>,
                                     rest: seq<RunFixAllResponse<FileOperation>>)
    : (r: RunFixAllResponse<FileOperation>)
    decreases |rest|
  {
    if rest == [] then first else FoldFixAll(MergeFixAll(first, Some(rest[0])).value, rest[1..])
  }

  /** Whatever was merged before, the fold yields the last response. */
  lemma {:induction false} FoldFixAllIsLast<FileOperation>(first: RunFixAllResponse<FileOperation>,
                                                           rest: seq<RunFixAllResponse<FileOperation>>)
    ensures FoldFixAll(first, rest) == if rest == [] then first else rest[|rest| - 1]
    decreases |rest|
  {
    if rest != [] {
      FoldFixAllIsLast(rest[0], rest[1..]);
    }
  }

  lemma MergeFixAllAssociative<FileOperation>(a: RunFixAllResponse<FileOperation>, b: RunFixAllResponse<FileOperation>,
                                              c: RunFixAllResponse<FileOperation>)
    ensures MergeFixAll(MergeFixAll(a, Some(b)).value, Some(c)) == MergeFixAll(a, MergeFixAll(b, Some(c)))
  {
  }
}
