/** Worked examples of validating offers and reconciling a machine's chunk
    offers. */
module Scenarios {
  import opened Offers
  import opened Filtering
  import opened Grouping
  import opened Validate
  import opened WholeMachines

  /** A chunk offer with just the fields reconciliation reads. */
  function Chunk(id: real, n: real, rentable: bool): Offer {
    map["machine_id" := Num(id), "num_gpus" := Num(n), "rentable" := Bool(rentable)]
  }

  /** Three free single-GPU chunks and an occupied three-GPU whole machine:
      the chunks tile the whole, none of them is occupied. */
  lemma ScenarioA(a: Offer, b: Offer)
    requires a == Chunk(42.0, 1.0, true) && b == Chunk(42.0, 3.0, false)
    ensures AllReconcilable([a, a, a, b])
    ensures Reconcile([a, a, a, b]).Some?
    ensures Reconcile([a, a, a, b]).value["min_chunk"] == Int(1)
    ensures Reconcile([a, a, a, b]).value["num_gpus_rented"] == Int(0)
  {
    ScenarioACounts(a, b);
    var s := [a, a, a, b];
    assert NumGpus(s[0]) == 1;
    TilingAccepted(s, 1, 3);
  }

  /** The counts and sums of scenario A. */
  lemma ScenarioACounts(a: Offer, b: Offer)
    requires a == Chunk(42.0, 1.0, true) && b == Chunk(42.0, 3.0, false)
    ensures AllReconcilable([a, a, a, b])
    ensures NumGpus(a) == 1 && NumGpus(b) == 3
    ensures forall i :: 0 <= i < 4 ==> 1 <= NumGpus([a, a, a, b][i]) <= 3
    ensures CountAt([a, a, a, b], 3) == 1 && CountAt([a, a, a, b], 1) == 3
    ensures UsedGpus([a, a, a, b], 1) == 0
  {
    var s := [a, a, a, b];
    assert NumGpus(a) == 1 && NumGpus(b) == 3;
    assert s[1..] == [a, a, b] && s[1..][1..] == [a, b] && [a, b][1..] == [b] && [b][1..] == [];
    assert CountAt([b], 3) == 1 && CountAt([b], 1) == 0;
    assert CountAt([a, b], 3) == 1 && CountAt([a, b], 1) == 1;
    assert CountAt([a, a, b], 3) == 1 && CountAt([a, a, b], 1) == 2;
    assert s[..3] == [a, a, a] && s[..3][..2] == [a, a] && s[..3][..2][..1] == [a] && [a][..0] == [];
    assert UsedGpus([a], 1) == 0;
    assert UsedGpus([a, a], 1) == 0;
    assert UsedGpus([a, a, a], 1) == 0;
  }

  /** Two occupied two-GPU chunks and a free four-GPU whole machine: the
      chunks tile the whole and all four GPUs are occupied. */
  lemma ScenarioB(a: Offer, b: Offer)
    requires a == Chunk(7.0, 2.0, false) && b == Chunk(7.0, 4.0, true)
    ensures AllReconcilable([a, a, b])
    ensures Reconcile([a, a, b]).Some?
    ensures Reconcile([a, a, b]).value["min_chunk"] == Int(2)
    ensures Reconcile([a, a, b]).value["num_gpus_rented"] == Int(4)
  {
    ScenarioBCounts(a, b);
    var s := [a, a, b];
    assert NumGpus(s[0]) == 2;
    TilingAccepted(s, 2, 2);
  }

  /** The counts and sums of scenario B. */
  lemma ScenarioBCounts(a: Offer, b: Offer)
    requires a == Chunk(7.0, 2.0, false) && b == Chunk(7.0, 4.0, true)
    ensures AllReconcilable([a, a, b])
    ensures NumGpus(a) == 2 && NumGpus(b) == 4
    ensures forall i :: 0 <= i < 3 ==> 2 <= NumGpus([a, a, b][i]) <= 4
    ensures CountAt([a, a, b], 4) == 1 && CountAt([a, a, b], 2) == 2
    ensures UsedGpus([a, a, b], 2) == 4
  {
    var s := [a, a, b];
    assert NumGpus(a) == 2 && NumGpus(b) == 4;
    assert s[1..] == [a, b] && [a, b][1..] == [b] && [b][1..] == [];
    assert CountAt([b], 4) == 1 && CountAt([b], 2) == 0;
    assert CountAt([a, b], 4) == 1 && CountAt([a, b], 2) == 1;
    assert s[..2] == [a, a] && s[..2][..1] == [a] && [a][..0] == [];
    assert UsedGpus([a], 2) == 2;
    assert UsedGpus([a, a], 2) == 4;
  }

  /** Two single-GPU chunks do not add up to the four-GPU whole machine, so
      the machine gets no record. */
  lemma ScenarioC(a: Offer, b: Offer)
    requires a == Chunk(9.0, 1.0, true) && b == Chunk(9.0, 4.0, true)
    ensures AllReconcilable([a, a, b])
    ensures Reconcile([a, a, b]).None?
  {
    ScenarioCCounts(a, b);
    var s := [a, a, b];
    assert NumGpus(s[0]) == 1 && NumGpus(s[2]) == 4;
    TilingIff(s, 1, 4);
  }

  /** The counts of scenario C. */
  lemma ScenarioCCounts(a: Offer, b: Offer)
    requires a == Chunk(9.0, 1.0, true) && b == Chunk(9.0, 4.0, true)
    ensures AllReconcilable([a, a, b])
    ensures NumGpus(a) == 1 && NumGpus(b) == 4
    ensures forall i :: 0 <= i < 3 ==> 1 <= NumGpus([a, a, b][i]) <= 4
    ensures CountAt([a, a, b], 1) == 2
  {
    var s := [a, a, b];
    assert NumGpus(a) == 1 && NumGpus(b) == 4;
    assert s[1..] == [a, b] && [a, b][1..] == [b] && [b][1..] == [];
    assert CountAt([b], 1) == 0;
    assert CountAt([a, b], 1) == 1;
  }

  /** A single free eight-GPU offer is its own whole machine. */
  lemma ScenarioD(o: Offer)
    requires o == Chunk(3.0, 8.0, true)
    ensures AllReconcilable([o])
    ensures Reconcile([o]).Some?
    ensures Reconcile([o]).value["min_chunk"] == Int(8)
    ensures Reconcile([o]).value["num_gpus_rented"] == Int(0)
  {
    assert NumGpus(o) == 8;
    SingleOffer(o);
  }

  /** An offer whose chunk size is a string is dropped by validation, so no
      group of the validated offers holds it. */
  lemma ScenarioE(s: seq<Offer>, o: Offer)
    requires o in s && IsStr(o, "num_gpus")
    ensures o !in Filtered(s, HasRequiredFields, None)
    ensures var t := Filtered(s, HasRequiredFields, None);
            (forall p :: p in t ==> HasMachineId(p)) &&
            forall k :: k in Grouped(t) ==> o !in Grouped(t)[k]
  {
    var t := Filtered(s, HasRequiredFields, None);
    FilteredMembers(s, HasRequiredFields);
    GroupedMembers(t);
  }
}
