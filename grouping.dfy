/** Partitioning offers by machine. */
module Grouping {
  import opened Offers
  import opened Filtering

  /** The specification of `groupByMachineId`: each offer appended to the
      group of its machine id, a missing group starting out empty. */
  function Grouped(s: seq<Offer>): map<int, seq<Offer>>
    requires forall o :: o in s ==> HasMachineId(o)
  {
    if s == [] then map[]
    else
      var g := Grouped(s[..|s| - 1]);
      var o := s[|s| - 1];
      var id := MachineId(o);
      g[id := (if id in g then g[id] else []) + [o]]
  }

  /** The offers of machine k. */
  function OfMachine(k: int): Offer -> bool {
    o => HasMachineId(o) && MachineId(o) == k
  }

  /** The machine ids of `s` in order of first appearance. */
  function Ids(s: seq<Offer>): seq<int>
    requires forall o :: o in s ==> HasMachineId(o)
  {
    if s == [] then []
    else
      var p := Ids(s[..|s| - 1]);
      var id := MachineId(s[|s| - 1]);
      if id in p then p else p + [id]
  }

  /** The total size of the groups named in ks. */
  function GroupSizes(g: map<int, seq<Offer>>, ks: seq<int>): int
    requires forall i :: 0 <= i < |ks| ==> ks[i] in g
  {
    if ks == [] then 0 else |g[ks[0]]| + GroupSizes(g, ks[1..])
  }

  predicate Distinct(ks: seq<int>) {
    forall i, j :: 0 <= i < j < |ks| ==> ks[i] != ks[j]
  }

  /** Each group is the subsequence of the offers of its machine, in input
      order, and a machine with no offers has no group. */
  lemma {:induction false} GroupIsFilter(s: seq<Offer>, k: int)
    requires forall o :: o in s ==> HasMachineId(o)
    ensures k in Grouped(s) ==> Grouped(s)[k] == Filtered(s, OfMachine(k), None)
    ensures k !in Grouped(s) <==> Filtered(s, OfMachine(k), None) == []
  {
    if s != [] {
      var p := s[..|s| - 1];
      assert forall o :: o in p ==> o in s;
      GroupIsFilter(p, k);
    }
  }

  /** The keys are exactly the machine ids that occur, no group is empty, and
      every member of a group is an input offer of that group's machine. */
  lemma {:induction false} GroupedMembers(s: seq<Offer>)
    requires forall o :: o in s ==> HasMachineId(o)
    ensures forall i :: 0 <= i < |s| ==> MachineId(s[i]) in Grouped(s) && s[i] in Grouped(s)[MachineId(s[i])]
    ensures forall k :: k in Grouped(s) ==> |Grouped(s)[k]| > 0
    ensures forall k, o :: k in Grouped(s) && o in Grouped(s)[k] ==> o in s && MachineId(o) == k
  {
    OffersGrouped(s);
    GroupsFromInput(s);
  }

  /** Every offer is in the group of its own machine. */
  lemma {:induction false} OffersGrouped(s: seq<Offer>)
    requires forall o :: o in s ==> HasMachineId(o)
    ensures forall i :: 0 <= i < |s| ==> MachineId(s[i]) in Grouped(s) && s[i] in Grouped(s)[MachineId(s[i])]
  {
    if s != [] {
      var p := s[..|s| - 1];
      assert forall o :: o in p ==> o in s;
      OffersGrouped(p);
      assert forall i :: 0 <= i < |p| ==> s[i] == p[i];
    }
  }

  /** Groups are nonempty and hold only input offers of their machine. */
  lemma {:induction false} GroupsFromInput(s: seq<Offer>)
    requires forall o :: o in s ==> HasMachineId(o)
    ensures forall k :: k in Grouped(s) ==> |Grouped(s)[k]| > 0
    ensures forall k, o :: k in Grouped(s) && o in Grouped(s)[k] ==> o in s && MachineId(o) == k
  {
    if s != [] {
      var p := s[..|s| - 1];
      assert forall o :: o in p ==> o in s;
      GroupsFromInput(p);
    }
  }

  /** Adding one offer to one listed group adds one to the total size. */
  lemma {:induction false} GroupSizesGrow(g: map<int, seq<Offer>>, ks: seq<int>, k: int, o: Offer)
    requires forall i :: 0 <= i < |ks| ==> ks[i] in g
    requires Distinct(ks) && k in ks
    ensures GroupSizes(g[k := g[k] + [o]], ks) == GroupSizes(g, ks) + 1
  {
    if ks[0] == k {
      GroupSizesUnaffected(g, ks[1..], k, g[k] + [o]);
    } else {
      GroupSizesGrow(g, ks[1..], k, o);
    }
  }

  /** Changing a group that is not listed leaves the total unchanged. */
  lemma {:induction false} GroupSizesUnaffected(g: map<int, seq<Offer>>, ks: seq<int>, k: int, v: seq<Offer>)
    requires forall i :: 0 <= i < |ks| ==> ks[i] in g
    requires k !in ks
    ensures GroupSizes(g[k := v], ks) == GroupSizes(g, ks)
  {
    if ks != [] {
      GroupSizesUnaffected(g, ks[1..], k, v);
    }
  }

  /** The machine ids in order of first appearance are each listed once and
      are exactly the keys of the grouping. */
  lemma {:induction false} IdsAreKeys(s: seq<Offer>)
    requires forall o :: o in s ==> HasMachineId(o)
    ensures Distinct(Ids(s))
    ensures forall k :: k in Ids(s) <==> k in Grouped(s)
    ensures forall i :: 0 <= i < |Ids(s)| ==> Ids(s)[i] in Grouped(s)
  {
    if s != [] {
      var p := s[..|s| - 1];
      assert forall o :: o in p ==> o in s;
      IdsAreKeys(p);
    }
  }

  /** The groups partition the input: listing each machine id once, the
      group sizes add up to the number of offers. */
  lemma {:induction false} GroupsPartition(s: seq<Offer>)
    requires forall o :: o in s ==> HasMachineId(o)
    ensures Distinct(Ids(s))
    ensures forall k :: k in Ids(s) <==> k in Grouped(s)
    ensures forall i :: 0 <= i < |Ids(s)| ==> Ids(s)[i] in Grouped(s)
    ensures GroupSizes(Grouped(s), Ids(s)) == |s|
  {
    IdsAreKeys(s);
    if s != [] {
      var p := s[..|s| - 1];
      assert forall o :: o in p ==> o in s;
      GroupsPartition(p);
      var g, ks := Grouped(p), Ids(p);
      var o := s[|s| - 1];
      var id := MachineId(o);
      if id in ks {
        GroupSizesGrow(g, ks, id, o);
      } else {
        NewGroupSize(p, s, o);
      }
    }
  }

  /** An offer of a machine not seen before starts a group of its own at the
      end of the listing. */
  lemma NewGroupSize(p: seq<Offer>, s: seq<Offer>, o: Offer)
    requires forall o :: o in s ==> HasMachineId(o)
    requires s != [] && p == s[..|s| - 1] && o == s[|s| - 1]
    requires forall o :: o in p ==> HasMachineId(o)
    requires Distinct(Ids(p))
    requires forall k :: k in Ids(p) <==> k in Grouped(p)
    requires forall i :: 0 <= i < |Ids(p)| ==> Ids(p)[i] in Grouped(p)
    requires MachineId(o) !in Ids(p)
    ensures forall i :: 0 <= i < |Ids(s)| ==> Ids(s)[i] in Grouped(s)
    ensures GroupSizes(Grouped(s), Ids(s)) == GroupSizes(Grouped(p), Ids(p)) + 1
  {
    var g, ks, id := Grouped(p), Ids(p), MachineId(o);
    assert id !in g;
    assert [] + [o] == [o];
    assert Grouped(s) == g[id := [o]];
    assert Ids(s) == ks + [id];
    GroupSizesUnaffected(g, ks, id, [o]);
    AppendGroupSize(g[id := [o]], ks, id);
  }

  /** Listing one more group adds its size to the total. */
  lemma {:induction false} AppendGroupSize(g: map<int, seq<Offer>>, ks: seq<int>, k: int)
    requires forall i :: 0 <= i < |ks| ==> ks[i] in g
    requires k in g
    ensures GroupSizes(g, ks + [k]) == GroupSizes(g, ks) + |g[k]|
  {
    if ks != [] {
      assert (ks + [k])[1..] == ks[1..] + [k];
      AppendGroupSize(g, ks[1..], k);
    }
  }

  /** `groupByMachineId`. */
  method GroupByMachineId(offers: seq<Offer>) returns (grouped: map<int, seq<Offer>>)
    requires forall o :: o in offers ==> HasMachineId(o)
    ensures grouped == Grouped(offers)
    ensures forall k :: k in grouped ==> |grouped[k]| > 0
    ensures forall k, o :: k in grouped && o in grouped[k] ==> o in offers && MachineId(o) == k
  {
    grouped := map[];
    for i := 0 to |offers|
      invariant forall o :: o in offers[..i] ==> HasMachineId(o)
      invariant grouped == Grouped(offers[..i])
    {
      assert offers[..i + 1][..i] == offers[..i];
      var id := MachineId(offers[i]);
      grouped := grouped[id := (if id in grouped then grouped[id] else []) + [offers[i]]];
    }
    assert offers[..|offers|] == offers;
    GroupedMembers(offers);
  }
}
