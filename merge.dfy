/** Joining the verified and unverified listings into one collection. */
module Merge {
  import opened Offers

  /** Fields dropped from every merged offer as irrelevant downstream. */
  const Denylist: set<string> := {
    "external", "webpage", "logo", "pending_count", "inet_down_billed",
    "inet_up_billed", "storage_total_cost", "dph_total", "rented", "is_bid"
  }

  /** The offer tagged with its provenance. */
  function Tagged(o: Offer, verified: bool): (r: Offer)
    ensures r.Keys == o.Keys + {"verified"}
    ensures r["verified"] == Bool(verified)
    ensures forall k :: k in o && k != "verified" ==> r[k] == o[k]
  {
    o["verified" := Bool(verified)]
  }

  /** The offer without the denylisted fields. */
  function Stripped(o: Offer): (r: Offer)
    ensures r.Keys == o.Keys - Denylist
    ensures forall k :: k in r ==> r[k] == o[k]
  {
    o - Denylist
  }

  /** `mergeRawOffers`: all verified offers then all unverified ones, in
      their original order, each tagged with its provenance and stripped
      of the denylisted fields; every other field is kept as it was. */
  method MergeRawOffers(verified: seq<Offer>, unverified: seq<Offer>) returns (result: seq<Offer>)
    ensures |result| == |verified| + |unverified|
    ensures forall i :: 0 <= i < |verified| ==> result[i] == Stripped(Tagged(verified[i], true))
    ensures forall j :: 0 <= j < |unverified| ==>
              result[|verified| + j] == Stripped(Tagged(unverified[j], false))
    ensures forall i :: 0 <= i < |result| ==> IsBool(result[i], "verified") && (Verified(result[i]) <==> i < |verified|)
    ensures forall i :: 0 <= i < |result| ==> result[i].Keys !! Denylist
  {
    result := [];
    for i := 0 to |verified|
      invariant |result| == i
      invariant forall j :: 0 <= j < i ==> result[j] == Tagged(verified[j], true)
    {
      result := result + [Tagged(verified[i], true)];
    }
    for i := 0 to |unverified|
      invariant |result| == |verified| + i
      invariant forall j :: 0 <= j < |verified| ==> result[j] == Tagged(verified[j], true)
      invariant forall j :: 0 <= j < i ==> result[|verified| + j] == Tagged(unverified[j], false)
    {
      result := result + [Tagged(unverified[i], false)];
    }
    ghost var tagged := result;
    for i := 0 to |result|
      invariant |result| == |tagged|
      invariant forall j :: 0 <= j < i ==> result[j] == Stripped(tagged[j])
      invariant forall j :: i <= j < |result| ==> result[j] == tagged[j]
    {
      result := result[i := Stripped(result[i])];
    }
    assert "verified" !in Denylist;
    forall i | 0 <= i < |result|
      ensures IsBool(result[i], "verified") && (Verified(result[i]) <==> i < |verified|)
    {
      if i < |verified| {
        assert result[i] == Stripped(Tagged(verified[i], true));
      } else {
        assert result[i] == Stripped(Tagged(unverified[i - |verified|], false));
      }
    }
  }
}
