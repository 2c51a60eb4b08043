/** Reconciling each machine's chunk offers into one whole-machine record. */
module WholeMachines {
  import opened Offers
  import opened Filtering
  import opened Grouping

  /** Fields of the whole-machine offer that the record leaves out. */
  const Dropped: set<string> := {"gpu_frac", "rentable", "bundle_id", "cpu_cores_effective"}

  /** The initial value of the running minimum. */
  const MinChunkStart := 10000

  predicate AllReconcilable(s: seq<Offer>) {
    forall i :: 0 <= i < |s| ==> Reconcilable(s[i])
  }

  /** Offers drawn from reconcilable offers are reconcilable. */
  lemma ReconcilableMembers(s: seq<Offer>, t: seq<Offer>)
    requires AllReconcilable(s)
    requires forall o :: o in t ==> o in s
    ensures AllReconcilable(t)
  {
    forall i | 0 <= i < |t|
      ensures Reconcilable(t[i])
    {
      assert t[i] in t;
      var j :| 0 <= j < |s| && s[j] == t[i];
    }
  }

  /** Every group of reconcilable offers is reconcilable. */
  lemma GroupsReconcilable(s: seq<Offer>)
    requires AllReconcilable(s)
    ensures forall i :: 0 <= i < |s| ==> HasMachineId(s[i])
    ensures forall k :: k in Grouped(s) ==> AllReconcilable(Grouped(s)[k])
  {
    GroupedMembers(s);
    forall k | k in Grouped(s)
      ensures AllReconcilable(Grouped(s)[k])
    {
      ReconcilableMembers(s, Grouped(s)[k]);
    }
  }

  /** The running minimum of the chunk sizes, started at 10000. */
  function MinChunk(s: seq<Offer>): (m: int)
    requires AllReconcilable(s)
    ensures m <= MinChunkStart
    ensures forall i :: 0 <= i < |s| ==> m <= NumGpus(s[i])
    ensures m == MinChunkStart || exists i :: 0 <= i < |s| && NumGpus(s[i]) == m
  {
    if s == [] then MinChunkStart
    else
      var p := s[..|s| - 1];
      assert s == p + [s[|s| - 1]];
      var m := MinChunk(p);
      var n := NumGpus(s[|s| - 1]);
      if n < m then n else m
  }

  /** The running maximum of the chunk sizes, started at 0. */
  function MaxChunk(s: seq<Offer>): (m: int)
    requires AllReconcilable(s)
    ensures 0 <= m
    ensures forall i :: 0 <= i < |s| ==> NumGpus(s[i]) <= m
    ensures m == 0 || exists i :: 0 <= i < |s| && NumGpus(s[i]) == m
  {
    if s == [] then 0
    else
      var p := s[..|s| - 1];
      assert s == p + [s[|s| - 1]];
      var m := MaxChunk(p);
      var n := NumGpus(s[|s| - 1]);
      if n > m then n else m
  }

  /** The sum of the chunk sizes of the offers of size m. */
  function TotalGpus(s: seq<Offer>, m: int): int
    requires AllReconcilable(s)
  {
    if s == [] then 0
    else
      var o := s[|s| - 1];
      TotalGpus(s[..|s| - 1], m) + (if NumGpus(o) == m then NumGpus(o) else 0)
  }

  /** The sum of the chunk sizes of the offers of size m that are not rentable. */
  function UsedGpus(s: seq<Offer>, m: int): int
    requires AllReconcilable(s)
  {
    if s == [] then 0
    else
      var o := s[|s| - 1];
      UsedGpus(s[..|s| - 1], m) + (if NumGpus(o) == m && !Rentable(o) then NumGpus(o) else 0)
  }

  /** The number of offers of size m. */
  function CountAt(s: seq<Offer>, m: int): nat
    requires AllReconcilable(s)
  {
    if s == [] then 0
    else CountAt(s[1..], m) + (if NumGpus(s[0]) == m then 1 else 0)
  }

  /** The number of offers of size m that are not rentable, i.e. occupied. */
  function CountOccupiedAt(s: seq<Offer>, m: int): nat
    requires AllReconcilable(s)
  {
    if s == [] then 0
    else CountOccupiedAt(s[1..], m) + (if NumGpus(s[0]) == m && !Rentable(s[0]) then 1 else 0)
  }

  /** Offers of chunk size m. */
  function AtChunk(m: int): Offer -> bool {
    o => IsNum(o, "num_gpus") && NumGpus(o) == m
  }

  /** The whole-machine candidates: the offers of chunk size m, in order. */
  function WholeOffers(s: seq<Offer>, m: int): seq<Offer> {
    Filtered(s, AtChunk(m), None)
  }

  /** The reconciled record: the computed counters, overridden by every field
      of the whole-machine offer except the dropped ones. */
  function WholeMachineRecord(whole: Offer, used: int, minChunk: int): (r: Offer)
    ensures r.Keys == (whole.Keys - Dropped) + {"num_gpus_rented", "min_chunk"}
    ensures forall k :: k in whole && k !in Dropped ==> r[k] == whole[k]
    ensures "num_gpus_rented" !in whole ==> r["num_gpus_rented"] == Int(used)
    ensures "min_chunk" !in whole ==> r["min_chunk"] == Int(minChunk)
  {
    map["num_gpus_rented" := Int(used), "min_chunk" := Int(minChunk)] + (whole - Dropped)
  }

  /** The specification of one machine's reconciliation: a record exactly
      when there is a single offer of the largest chunk size and the offers
      of the smallest chunk size add up to it. */
  function Reconcile(s: seq<Offer>): Option<Offer>
    requires AllReconcilable(s)
  {
    var minChunk := MinChunk(s);
    var maxChunk := MaxChunk(s);
    var whole := WholeOffers(s, maxChunk);
    FilteredMembers(s, AtChunk(maxChunk));
    ReconcilableMembers(s, whole);
    if |whole| != 1 || NumGpus(whole[0]) != TotalGpus(s, minChunk) then None
    else Some(WholeMachineRecord(whole[0], UsedGpus(s, minChunk), minChunk))
  }

  /** Groups of reconcilable offers, each holding offers of its own machine. */
  predicate GroupsOfMachines(g: map<int, seq<Offer>>) {
    forall k :: k in g ==> AllReconcilable(g[k]) && forall o :: o in g[k] ==> MachineId(o) == k
  }

  /** The records of the machines of g that reconcile, by machine id. */
  function Records(g: map<int, seq<Offer>>): map<int, Offer>
    requires forall k :: k in g ==> AllReconcilable(g[k])
  {
    map k | k in g && Reconcile(g[k]).Some? :: Reconcile(g[k]).value
  }

  /** The records of all machines of `s`, by machine id. */
  function Reconciliation(s: seq<Offer>): map<int, Offer>
    requires AllReconcilable(s)
  {
    GroupsReconcilable(s);
    Records(Grouped(s))
  }

  /** Counting from the other end gives the same count. */
  lemma {:induction false} CountAtLast(s: seq<Offer>, m: int)
    requires AllReconcilable(s) && s != []
    ensures CountAt(s, m) == CountAt(s[..|s| - 1], m) + (if NumGpus(s[|s| - 1]) == m then 1 else 0)
    ensures CountOccupiedAt(s, m) ==
            CountOccupiedAt(s[..|s| - 1], m) + (if NumGpus(s[|s| - 1]) == m && !Rentable(s[|s| - 1]) then 1 else 0)
  {
    if |s| > 1 {
      assert s[1..][..|s[1..]| - 1] == s[..|s| - 1][1..];
      CountAtLast(s[1..], m);
    }
  }

  /** The sums of the second loop are the chunk size times the number of
      offers summed over, and the occupied ones are among them. */
  lemma {:induction false} TotalsAreMultiples(s: seq<Offer>, m: int)
    requires AllReconcilable(s)
    ensures TotalGpus(s, m) == m * CountAt(s, m)
    ensures UsedGpus(s, m) == m * CountOccupiedAt(s, m)
    ensures CountOccupiedAt(s, m) <= CountAt(s, m)
  {
    TotalIsMultiple(s, m);
    UsedIsMultiple(s, m);
    OccupiedAmongCounted(s, m);
  }

  /** The total at size m is m per offer of that size. */
  lemma {:induction false} TotalIsMultiple(s: seq<Offer>, m: int)
    requires AllReconcilable(s)
    ensures TotalGpus(s, m) == m * CountAt(s, m)
  {
    if s != [] {
      var p := s[..|s| - 1];
      TotalIsMultiple(p, m);
      CountAtLast(s, m);
      if NumGpus(s[|s| - 1]) == m {
        MulSucc(m, CountAt(p, m));
      }
    }
  }

  /** The occupied total at size m is m per occupied offer of that size. */
  lemma {:induction false} UsedIsMultiple(s: seq<Offer>, m: int)
    requires AllReconcilable(s)
    ensures UsedGpus(s, m) == m * CountOccupiedAt(s, m)
  {
    if s != [] {
      var p := s[..|s| - 1];
      UsedIsMultiple(p, m);
      CountAtLast(s, m);
      if NumGpus(s[|s| - 1]) == m && !Rentable(s[|s| - 1]) {
        MulSucc(m, CountOccupiedAt(p, m));
      }
    }
  }

  /** One more summand of m adds m. */
  lemma MulSucc(m: int, c: int)
    ensures m * (c + 1) == m * c + m
  {
  }

  /** The occupied offers of a size are among the offers of that size. */
  lemma {:induction false} OccupiedAmongCounted(s: seq<Offer>, m: int)
    requires AllReconcilable(s)
    ensures CountOccupiedAt(s, m) <= CountAt(s, m)
  {
    if s != [] {
      OccupiedAmongCounted(s[1..], m);
    }
  }

  /** An offer of size m exists iff the count at m is positive. */
  lemma {:induction false} CountAtPositive(s: seq<Offer>, m: int)
    requires AllReconcilable(s)
    ensures CountAt(s, m) > 0 <==> exists i :: 0 <= i < |s| && NumGpus(s[i]) == m
  {
    if s != [] {
      CountAtPositive(s[1..], m);
      if CountAt(s[1..], m) > 0 {
        var i :| 0 <= i < |s[1..]| && NumGpus(s[1..][i]) == m;
        assert NumGpus(s[i + 1]) == m;
      }
      if exists i :: 0 <= i < |s| && NumGpus(s[i]) == m {
        var i :| 0 <= i < |s| && NumGpus(s[i]) == m;
        if i > 0 {
          assert NumGpus(s[1..][i - 1]) == m;
        }
      }
    }
  }

  /** The whole-machine candidates are exactly the offers of size m, as
      many as the count at m. */
  lemma {:induction false} WholeOffersAtChunk(s: seq<Offer>, m: int)
    requires AllReconcilable(s)
    ensures |WholeOffers(s, m)| == CountAt(s, m)
    ensures forall o :: o in WholeOffers(s, m) <==> o in s && NumGpus(o) == m
  {
    FilteredMembers(s, AtChunk(m));
    if s != [] {
      WholeOffersAtChunk(s[..|s| - 1], m);
      CountAtLast(s, m);
    }
  }

  /** When the chunk sizes lie between 0 and 10000, the running minimum and
      maximum are the true smallest and largest chunk sizes, and a record is
      emitted exactly when one offer has the largest size and the offers of
      the smallest size add up to it. */
  lemma TilingIff(s: seq<Offer>, lo: int, hi: int)
    requires AllReconcilable(s)
    requires exists i :: 0 <= i < |s| && NumGpus(s[i]) == lo
    requires exists i :: 0 <= i < |s| && NumGpus(s[i]) == hi
    requires forall i :: 0 <= i < |s| ==> lo <= NumGpus(s[i]) <= hi
    requires lo <= MinChunkStart && 0 <= hi
    ensures MinChunk(s) == lo && MaxChunk(s) == hi
    ensures Reconcile(s).Some? <==> CountAt(s, hi) == 1 && lo * CountAt(s, lo) == hi
  {
    var i :| 0 <= i < |s| && NumGpus(s[i]) == lo;
    var j :| 0 <= j < |s| && NumGpus(s[j]) == hi;
    assert s[i] in s && s[j] in s;
    WholeOffersAtChunk(s, hi);
    TotalsAreMultiples(s, lo);
  }

  /** The sign of a total: none summed gives 0, and some summed of a
      negative size gives a negative total. */
  lemma {:induction false} TotalSign(s: seq<Offer>, m: int)
    requires AllReconcilable(s)
    ensures CountAt(s, m) == 0 ==> TotalGpus(s, m) == 0
    ensures m < 0 && CountAt(s, m) > 0 ==> TotalGpus(s, m) < 0
  {
    if s != [] {
      TotalSign(s[..|s| - 1], m);
      CountAtLast(s, m);
    }
  }

  /** What a successful reconciliation checked, in terms of the counts. */
  lemma ReconcileSucceeded(s: seq<Offer>)
    requires AllReconcilable(s)
    requires Reconcile(s).Some?
    ensures CountAt(s, MaxChunk(s)) == 1
    ensures TotalGpus(s, MinChunk(s)) == MaxChunk(s)
    ensures exists i :: 0 <= i < |s| && NumGpus(s[i]) == MaxChunk(s)
    ensures |WholeOffers(s, MaxChunk(s))| == 1
    ensures Reconcilable(WholeOffers(s, MaxChunk(s))[0])
    ensures Reconcile(s).value ==
            WholeMachineRecord(WholeOffers(s, MaxChunk(s))[0], UsedGpus(s, MinChunk(s)), MinChunk(s))
  {
    WholeOffersAtChunk(s, MaxChunk(s));
    CountAtPositive(s, MaxChunk(s));
  }

  /** The offers of the smallest chunk size tile the largest chunk. */
  lemma TilingProduct(s: seq<Offer>)
    requires AllReconcilable(s)
    requires Reconcile(s).Some?
    ensures MinChunk(s) * CountAt(s, MinChunk(s)) == MaxChunk(s)
  {
    ReconcileSucceeded(s);
    TotalsAreMultiples(s, MinChunk(s));
  }

  /** Every emitted record comes from a machine whose running bounds are
      attained, whose largest chunk occurs once, and whose smallest chunks
      tile it; in particular the chunk sizes are then at least 0. */
  lemma EmittedMachineTiles(s: seq<Offer>)
    requires AllReconcilable(s)
    requires Reconcile(s).Some?
    ensures exists i :: 0 <= i < |s| && NumGpus(s[i]) == MinChunk(s)
    ensures exists i :: 0 <= i < |s| && NumGpus(s[i]) == MaxChunk(s)
    ensures 0 <= MinChunk(s) <= MaxChunk(s)
    ensures CountAt(s, MaxChunk(s)) == 1
    ensures MinChunk(s) * CountAt(s, MinChunk(s)) == MaxChunk(s)
  {
    TilingProduct(s);
    var lo, hi := MinChunk(s), MaxChunk(s);
    ReconcileSucceeded(s);
    var j :| 0 <= j < |s| && NumGpus(s[j]) == hi;
    TotalSign(s, lo);
    CountAtPositive(s, lo);
    assert CountAt(s, lo) > 0;
  }

  /** For a chunk size of at least 0, the occupied GPUs are at least 0 and
      at most all the GPUs of that size. */
  lemma {:induction false} UsedWithinTotal(s: seq<Offer>, m: int)
    requires AllReconcilable(s)
    requires 0 <= m
    ensures 0 <= UsedGpus(s, m) <= TotalGpus(s, m)
  {
    if s != [] {
      UsedWithinTotal(s[..|s| - 1], m);
    }
  }

  /** An emitted record has every field of the unique largest-chunk offer
      except the dropped ones, with the values unchanged, and the computed
      minimum chunk and occupied GPU count unless that offer carries fields
      of those names. */
  lemma RecordShape(s: seq<Offer>, w: int)
    requires AllReconcilable(s)
    requires Reconcile(s).Some?
    requires 0 <= w < |s| && NumGpus(s[w]) == MaxChunk(s)
    ensures Reconcile(s).value.Keys == (s[w].Keys - Dropped) + {"num_gpus_rented", "min_chunk"}
    ensures forall k :: k in s[w] && k !in Dropped ==> Reconcile(s).value[k] == s[w][k]
    ensures "min_chunk" !in s[w] ==> Reconcile(s).value["min_chunk"] == Int(MinChunk(s))
    ensures "num_gpus_rented" !in s[w] ==> Reconcile(s).value["num_gpus_rented"] == Int(UsedGpus(s, MinChunk(s)))
  {
    ReconcileSucceeded(s);
    UniqueWhole(s, w);
  }

  /** The unique offer of the largest chunk size is the candidate. */
  lemma UniqueWhole(s: seq<Offer>, w: int)
    requires AllReconcilable(s)
    requires |WholeOffers(s, MaxChunk(s))| == 1
    requires 0 <= w < |s| && NumGpus(s[w]) == MaxChunk(s)
    ensures WholeOffers(s, MaxChunk(s))[0] == s[w]
  {
    WholeOffersAtChunk(s, MaxChunk(s));
    assert s[w] in s;
  }

  /** The occupied GPU count of an emitted record lies between 0 and the
      record's GPU count. */
  lemma RecordOccupancy(s: seq<Offer>)
    requires AllReconcilable(s)
    requires Reconcile(s).Some?
    ensures IsNum(Reconcile(s).value, "num_gpus")
    ensures 0 <= UsedGpus(s, MinChunk(s)) <= NumGpus(Reconcile(s).value)
  {
    ReconcileSucceeded(s);
    EmittedMachineTiles(s);
    UsedWithinTotal(s, MinChunk(s));
    var whole := WholeOffers(s, MaxChunk(s));
    assert Reconcile(s).value["num_gpus"] == whole[0]["num_gpus"];
  }

  /** A machine whose chunk sizes lie between 0 and 10000, with one offer
      of the largest size that the smallest chunks tile, gets a record with
      the smallest size as `min_chunk` and the occupied smallest chunks as
      `num_gpus_rented`, unless the whole offer carries fields of those names. */
  lemma TilingAccepted(s: seq<Offer>, lo: int, w: int)
    requires AllReconcilable(s)
    requires 0 <= w < |s|
    requires exists i :: 0 <= i < |s| && NumGpus(s[i]) == lo
    requires forall i :: 0 <= i < |s| ==> lo <= NumGpus(s[i]) <= NumGpus(s[w])
    requires 0 <= lo <= MinChunkStart
    requires CountAt(s, NumGpus(s[w])) == 1 && lo * CountAt(s, lo) == NumGpus(s[w])
    ensures Reconcile(s).Some?
    ensures "min_chunk" !in s[w] ==> Reconcile(s).value["min_chunk"] == Int(lo)
    ensures "num_gpus_rented" !in s[w] ==> Reconcile(s).value["num_gpus_rented"] == Int(UsedGpus(s, lo))
  {
    TilingIff(s, lo, NumGpus(s[w]));
    RecordShape(s, w);
  }

  /** A machine listed as a single offer is reconciled exactly when its chunk
      size lies between 0 and 10000, and then trivially tiles itself. */
  lemma SingleOffer(o: Offer)
    requires Reconcilable(o)
    ensures Reconcile([o]).Some? <==> 0 <= NumGpus(o) <= MinChunkStart
    ensures Reconcile([o]).Some? && "min_chunk" !in o ==>
              Reconcile([o]).value["min_chunk"] == Int(NumGpus(o))
    ensures Reconcile([o]).Some? && "num_gpus_rented" !in o ==>
              Reconcile([o]).value["num_gpus_rented"] == Int(if Rentable(o) then 0 else NumGpus(o))
  {
    var s := [o];
    assert s[..0] == [];
    assert s[1..] == [];
    WholeOffersAtChunk(s, MaxChunk(s));
    TotalsAreMultiples(s, MinChunk(s));
    if 0 <= NumGpus(o) <= MinChunkStart {
      TilingIff(s, NumGpus(o), NumGpus(o));
      RecordShape(s, 0);
    }
  }

  /** Every member of a reconciled record's machine having machine id k,
      the record carries machine id k. */
  lemma RecordOfMachine(s: seq<Offer>, k: int)
    requires AllReconcilable(s)
    requires forall o :: o in s ==> MachineId(o) == k
    requires Reconcile(s).Some?
    ensures IsNum(Reconcile(s).value, "machine_id") && MachineId(Reconcile(s).value) == k
  {
    var whole := WholeOffers(s, MaxChunk(s));
    FilteredMembers(s, AtChunk(MaxChunk(s)));
    assert whole[0] in whole;
  }

  /** The comprehension of `Reconciliation`, read at one machine. */
  lemma ReconciliationAt(s: seq<Offer>, k: int)
    requires AllReconcilable(s)
    ensures forall i :: 0 <= i < |s| ==> HasMachineId(s[i])
    ensures k in Grouped(s) ==> AllReconcilable(Grouped(s)[k])
    ensures k in Reconciliation(s) <==> k in Grouped(s) && Reconcile(Grouped(s)[k]).Some?
    ensures k in Reconciliation(s) ==> Reconciliation(s)[k] == Reconcile(Grouped(s)[k]).value
  {
    GroupsReconcilable(s);
  }

  /** A machine gets a record iff it has offers and its offers, taken in
      input order, reconcile; the record depends on that machine's offers
      alone and carries its machine id. */
  lemma ReconciledMachine(s: seq<Offer>, k: int)
    requires AllReconcilable(s)
    ensures AllReconcilable(Filtered(s, OfMachine(k), None))
    ensures k in Reconciliation(s) <==>
            Filtered(s, OfMachine(k), None) != [] && Reconcile(Filtered(s, OfMachine(k), None)).Some?
    ensures k in Reconciliation(s) ==>
            && Reconciliation(s)[k] == Reconcile(Filtered(s, OfMachine(k), None)).value
            && IsNum(Reconciliation(s)[k], "machine_id") && MachineId(Reconciliation(s)[k]) == k
  {
    ReconciliationAt(s, k);
    FilteredMembers(s, OfMachine(k));
    ReconcilableMembers(s, Filtered(s, OfMachine(k), None));
    GroupIsFilter(s, k);
    if k in Reconciliation(s) {
      RecordOfMachine(Filtered(s, OfMachine(k), None), k);
    }
  }

  /** One machine's outcome is unaffected by the offers of every other
      machine: two snapshots that agree on machine k's offers agree on its
      record. */
  lemma MachinesIndependent(s: seq<Offer>, t: seq<Offer>, k: int)
    requires AllReconcilable(s) && AllReconcilable(t)
    requires Filtered(s, OfMachine(k), None) == Filtered(t, OfMachine(k), None)
    ensures k in Reconciliation(s) <==> k in Reconciliation(t)
    ensures k in Reconciliation(s) ==> Reconciliation(s)[k] == Reconciliation(t)[k]
  {
    ReconciledMachine(s, k);
    ReconciledMachine(t, k);
  }

  /** The first pass over a machine's offers: its running minimum and
      maximum chunk sizes. */
  method ChunkBounds(offers: seq<Offer>) returns (minChunkSize: int, maxChunkSize: int)
    requires AllReconcilable(offers)
    ensures minChunkSize == MinChunk(offers) && maxChunkSize == MaxChunk(offers)
  {
    minChunkSize, maxChunkSize := MinChunkStart, 0;
    for i := 0 to |offers|
      invariant AllReconcilable(offers[..i])
      invariant minChunkSize == MinChunk(offers[..i]) && maxChunkSize == MaxChunk(offers[..i])
    {
      assert offers[..i + 1][..i] == offers[..i];
      var numGpus := NumGpus(offers[i]);
      if numGpus < minChunkSize {
        minChunkSize := numGpus;
      }
      if numGpus > maxChunkSize {
        maxChunkSize := numGpus;
      }
    }
    assert offers[..|offers|] == offers;
  }

  /** The second pass: the GPUs of the chunks of the smallest size, and
      those of them that are occupied. */
  method ChunkTotals(offers: seq<Offer>, minChunkSize: int) returns (totalGpus: int, usedGpus: int)
    requires AllReconcilable(offers)
    ensures totalGpus == TotalGpus(offers, minChunkSize)
    ensures usedGpus == UsedGpus(offers, minChunkSize)
  {
    totalGpus, usedGpus := 0, 0;
    for i := 0 to |offers|
      invariant AllReconcilable(offers[..i])
      invariant totalGpus == TotalGpus(offers[..i], minChunkSize)
      invariant usedGpus == UsedGpus(offers[..i], minChunkSize)
    {
      assert offers[..i + 1][..i] == offers[..i];
      var numGpus := NumGpus(offers[i]);
      if numGpus == minChunkSize {
        totalGpus := totalGpus + numGpus;
        if !Rentable(offers[i]) {
          usedGpus := usedGpus + numGpus;
        }
      }
    }
    assert offers[..|offers|] == offers;
  }

  /** The third pass: the offers of the largest chunk size, in order. */
  method CollectWhole(offers: seq<Offer>, maxChunkSize: int) returns (wholeOffers: seq<Offer>)
    requires AllReconcilable(offers)
    ensures wholeOffers == WholeOffers(offers, maxChunkSize)
    ensures AllReconcilable(wholeOffers)
  {
    wholeOffers := [];
    for i := 0 to |offers|
      invariant wholeOffers == WholeOffers(offers[..i], maxChunkSize)
    {
      assert offers[..i + 1][..i] == offers[..i];
      if NumGpus(offers[i]) == maxChunkSize {
        wholeOffers := wholeOffers + [offers[i]];
      }
    }
    assert offers[..|offers|] == offers;
    FilteredMembers(offers, AtChunk(maxChunkSize));
    ReconcilableMembers(offers, wholeOffers);
  }

  /** Building the record: the computed counters, then every field of the
      whole-machine offer except the dropped ones, copied in no particular
      order. */
  method BuildRecord(whole: Offer, usedGpus: int, minChunkSize: int) returns (newOffer: Offer)
    ensures newOffer == WholeMachineRecord(whole, usedGpus, minChunkSize)
  {
    newOffer := map["num_gpus_rented" := Int(usedGpus), "min_chunk" := Int(minChunkSize)];
    ghost var computed := newOffer;
    var pending := whole.Keys;
    while pending != {}
      invariant pending <= whole.Keys
      invariant newOffer == computed + (whole - Dropped - pending)
      decreases pending
    {
      ghost var some := Member(pending);
      var k :| k in pending;
      if k != "gpu_frac" && k != "rentable" && k != "bundle_id" && k != "cpu_cores_effective" {
        newOffer := newOffer[k := whole[k]];
      }
      pending := pending - {k};
    }
    assert whole - Dropped - {} == whole - Dropped;
  }

  /** The body of the loop over machines in `filterWholeMachines`. */
  method ReconcileMachine(offers: seq<Offer>) returns (record: Option<Offer>)
    requires AllReconcilable(offers)
    ensures record == Reconcile(offers)
  {
    var minChunkSize, maxChunkSize := ChunkBounds(offers);
    var totalGpus, usedGpus := ChunkTotals(offers, minChunkSize);
    var wholeOffers := CollectWhole(offers, maxChunkSize);
    if |wholeOffers| != 1 || NumGpus(wholeOffers[0]) != totalGpus {
      record := None;
      return;
    }
    var newOffer := BuildRecord(wholeOffers[0], usedGpus, minChunkSize);
    record := Some(newOffer);
  }

  /** `result` holds, each once, exactly the records of the machines in
      `done` that have one. */
  predicate Collected(records: map<int, Offer>, result: seq<Offer>, done: set<int>) {
    && (forall i :: 0 <= i < |result| ==>
          && IsNum(result[i], "machine_id")
          && MachineId(result[i]) in done
          && MachineId(result[i]) in records
          && records[MachineId(result[i])] == result[i])
    && (forall k :: k in records && k in done ==> records[k] in result)
    && (forall i, j :: 0 <= i < j < |result| ==> MachineId(result[i]) != MachineId(result[j]))
  }

  /** Visiting a machine that has a record, and appending that record. */
  lemma CollectedAdd(records: map<int, Offer>, result: seq<Offer>, done: set<int>, k: int)
    requires Collected(records, result, done)
    requires k !in done && k in records
    requires IsNum(records[k], "machine_id") && MachineId(records[k]) == k
    ensures Collected(records, result + [records[k]], done + {k})
  {
    var result' := result + [records[k]];
    forall m | m in records && m in done + {k}
      ensures records[m] in result'
    {
      if m in done {
        assert records[m] in result;
      } else {
        assert result'[|result|] == records[m];
      }
    }
  }

  /** Visiting a machine that has no record. */
  lemma CollectedSkip(records: map<int, Offer>, result: seq<Offer>, done: set<int>, k: int)
    requires Collected(records, result, done)
    requires k !in records
    ensures Collected(records, result, done + {k})
  {
  }

  /** One iteration of the loop over machines: visiting machine k, and
      appending its record when it has one, collects machine k too. */
  lemma VisitMachine(grouped: map<int, seq<Offer>>, result: seq<Offer>, done: set<int>, k: int, record: Option<Offer>)
    requires GroupsOfMachines(grouped)
    requires Collected(Records(grouped), result, done)
    requires k in grouped && k !in done
    requires record == Reconcile(grouped[k])
    ensures Collected(Records(grouped), if record.Some? then result + [record.value] else result, done + {k})
  {
    var records := Records(grouped);
    if record.Some? {
      RecordOfMachine(grouped[k], k);
      CollectedAdd(records, result, done, k);
    } else {
      CollectedSkip(records, result, done, k);
    }
  }

  /** The loop over machines of `filterWholeMachines`: one record per
      machine that reconciles, visited in no particular order. The result
      holds exactly the records of `Records(grouped)`, each once. */
  method ReconcileAll(grouped: map<int, seq<Offer>>) returns (result: seq<Offer>)
    requires GroupsOfMachines(grouped)
    ensures Collected(Records(grouped), result, grouped.Keys)
  {
    result := [];
    var pending := grouped.Keys;
    ghost var done: set<int> := {};
    while pending != {}
      invariant pending == grouped.Keys - done
      invariant Collected(Records(grouped), result, done)
      decreases pending
    {
      ghost var some := Member(pending);
      var machineId :| machineId in pending;
      var record := ReconcileMachine(grouped[machineId]);
      VisitMachine(grouped, result, done, machineId, record);
      if record.Some? {
        result := result + [record.value];
      }
      pending := pending - {machineId};
      done := done + {machineId};
    }
  }

  /** `filterWholeMachines`: the records of the machines that reconcile,
      each once, in no particular order. */
  method FilterWholeMachines(offers: seq<Offer>) returns (result: seq<Offer>)
    requires AllReconcilable(offers)
    ensures Collected(Reconciliation(offers), result, Reconciliation(offers).Keys)
  {
    GroupsReconcilable(offers);
    var grouped := GroupByMachineId(offers);
    result := ReconcileAll(grouped);
    CollectedAll(Records(grouped), result, grouped.Keys);
  }

  /** Having visited every machine with a record is having collected them all. */
  lemma CollectedAll(records: map<int, Offer>, result: seq<Offer>, done: set<int>)
    requires Collected(records, result, done)
    requires records.Keys <= done
    ensures Collected(records, result, records.Keys)
  {
  }
}
