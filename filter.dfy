/** Selecting offers by a predicate, optionally rewriting the ones kept. */
module Filtering {
  import opened Offers

  /** The offer itself, or the post-processing of it when there is one. */
  function Apply(post: Option<Offer -> Offer>, o: Offer): Offer {
    match post
    case None => o
    case Some(f) => f(o)
  }

  /** The specification of filtering: the offers satisfying `keep`, in order,
      each passed through `post`. */
  function Filtered(s: seq<Offer>, keep: Offer -> bool, post: Option<Offer -> Offer>): seq<Offer>
  {
    if s == [] then []
    else
      var o := s[|s| - 1];
      Filtered(s[..|s| - 1], keep, post) + (if keep(o) then [Apply(post, o)] else [])
  }

  /** The positions of `s` holding an offer that satisfies `keep`. */
  function KeptIndices(s: seq<Offer>, keep: Offer -> bool): seq<nat>
  {
    if s == [] then []
    else KeptIndices(s[..|s| - 1], keep) + (if keep(s[|s| - 1]) then [|s| - 1] else [])
  }

  /** The filtered sequence is the subsequence of the kept positions: those
      positions increase, are exactly the ones whose offer satisfies `keep`,
      and the j-th result is the (post-processed) offer at the j-th of them. */
  lemma {:induction false} FilteredIsSubsequence(s: seq<Offer>, keep: Offer -> bool, post: Option<Offer -> Offer>)
    ensures |Filtered(s, keep, post)| == |KeptIndices(s, keep)|
    ensures forall j :: 0 <= j < |KeptIndices(s, keep)| ==>
              KeptIndices(s, keep)[j] < |s| && Filtered(s, keep, post)[j] == Apply(post, s[KeptIndices(s, keep)[j]])
    ensures forall j, j' :: 0 <= j < j' < |KeptIndices(s, keep)| ==> KeptIndices(s, keep)[j] < KeptIndices(s, keep)[j']
    ensures forall i :: 0 <= i < |s| ==> (keep(s[i]) <==> i in KeptIndices(s, keep))
  {
    FilteredAtKept(s, keep, post);
    KeptIncreasing(s, keep);
    KeptExactly(s, keep);
  }

  /** The j-th result is the offer at the j-th kept position. */
  lemma {:induction false} FilteredAtKept(s: seq<Offer>, keep: Offer -> bool, post: Option<Offer -> Offer>)
    ensures |Filtered(s, keep, post)| == |KeptIndices(s, keep)|
    ensures forall j :: 0 <= j < |KeptIndices(s, keep)| ==>
              KeptIndices(s, keep)[j] < |s| && Filtered(s, keep, post)[j] == Apply(post, s[KeptIndices(s, keep)[j]])
  {
    if s != [] {
      var p := s[..|s| - 1];
      FilteredAtKept(p, keep, post);
      assert forall i :: 0 <= i < |p| ==> p[i] == s[i];
    }
  }

  /** The kept positions increase, and lie below the length. */
  lemma {:induction false} KeptIncreasing(s: seq<Offer>, keep: Offer -> bool)
    ensures forall j :: 0 <= j < |KeptIndices(s, keep)| ==> KeptIndices(s, keep)[j] < |s|
    ensures forall j, j' :: 0 <= j < j' < |KeptIndices(s, keep)| ==> KeptIndices(s, keep)[j] < KeptIndices(s, keep)[j']
  {
    if s != [] {
      KeptIncreasing(s[..|s| - 1], keep);
    }
  }

  /** A position is kept iff its offer satisfies the predicate. */
  lemma {:induction false} KeptExactly(s: seq<Offer>, keep: Offer -> bool)
    ensures forall i :: 0 <= i < |s| ==> (keep(s[i]) <==> i in KeptIndices(s, keep))
  {
    if s != [] {
      var p := s[..|s| - 1];
      KeptExactly(p, keep);
      KeptIncreasing(p, keep);
      assert forall i :: 0 <= i < |p| ==> p[i] == s[i];
    }
  }

  /** Without post-processing, an offer is in the result iff it is in the
      input and satisfies the predicate. */
  lemma {:induction false} FilteredMembers(s: seq<Offer>, keep: Offer -> bool)
    ensures forall o :: o in Filtered(s, keep, None) <==> o in s && keep(o)
  {
    if s != [] {
      var p := s[..|s| - 1];
      FilteredMembers(p, keep);
      assert s == p + [s[|s| - 1]];
    }
  }

  /** The loop of `filter2`: appends each kept offer, post-processed when a
      post-processing function is given. */
  method Filter2(offers: seq<Offer>, keep: Offer -> bool, post: Option<Offer -> Offer>) returns (result: seq<Offer>)
    ensures result == Filtered(offers, keep, post)
  {
    result := [];
    for i := 0 to |offers|
      invariant result == Filtered(offers[..i], keep, post)
    {
      assert offers[..i + 1][..i] == offers[..i];
      if keep(offers[i]) {
        match post {
          case Some(f) => result := result + [f(offers[i])];
          case None => result := result + [offers[i]];
        }
      }
    }
    assert offers[..|offers|] == offers;
  }

  /** `filter`: `filter2` without post-processing. */
  method Filter(offers: seq<Offer>, keep: Offer -> bool) returns (result: seq<Offer>)
    ensures result == Filtered(offers, keep, None)
    ensures forall o :: o in result <==> o in offers && keep(o)
  {
    result := Filter2(offers, keep, None);
    FilteredMembers(offers, keep);
  }
}
