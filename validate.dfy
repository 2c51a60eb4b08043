/** Dropping malformed offers, and the diagnostic about missing occupancy
    fractions. */
module Validate {
  import opened Offers
  import opened Filtering
  import opened Grouping

  /** The five fields every usable offer must carry, with their dynamic types. */
  predicate HasRequiredFields(o: Offer) {
    && IsNum(o, "machine_id")
    && IsStr(o, "gpu_name")
    && IsNum(o, "num_gpus")
    && IsNum(o, "dph_base")
    && IsBool(o, "rentable")
  }

  /** Some offer of the group has no numeric occupancy fraction. */
  predicate MissingGpuFrac(s: seq<Offer>) {
    exists i :: 0 <= i < |s| && !IsNum(s[i], "gpu_frac")
  }

  /** The machines the diagnostic warns about. */
  function GpuFracWarnings(g: map<int, seq<Offer>>): set<int> {
    set k | k in g && MissingGpuFrac(g[k])
  }

  /** A machine is warned about iff one of its offers lacks a numeric
      occupancy fraction. */
  lemma WarningsMeaning(s: seq<Offer>, k: int)
    requires forall o :: o in s ==> HasMachineId(o)
    ensures k in GpuFracWarnings(Grouped(s)) <==>
            exists i :: 0 <= i < |s| && MachineId(s[i]) == k && !IsNum(s[i], "gpu_frac")
  {
    if k in GpuFracWarnings(Grouped(s)) {
      WarnedHasOffer(s, k);
    }
    if exists i :: 0 <= i < |s| && MachineId(s[i]) == k && !IsNum(s[i], "gpu_frac") {
      var i :| 0 <= i < |s| && MachineId(s[i]) == k && !IsNum(s[i], "gpu_frac");
      OfferIsWarned(s, i);
    }
  }

  /** A warned machine has an offer without a numeric `gpu_frac`. */
  lemma WarnedHasOffer(s: seq<Offer>, k: int)
    requires forall o :: o in s ==> HasMachineId(o)
    requires k in GpuFracWarnings(Grouped(s))
    ensures exists i :: 0 <= i < |s| && MachineId(s[i]) == k && !IsNum(s[i], "gpu_frac")
  {
    GroupIsFilter(s, k);
    FilteredMembers(s, OfMachine(k));
    var g := Grouped(s);
    var j :| 0 <= j < |g[k]| && !IsNum(g[k][j], "gpu_frac");
    assert g[k][j] in Filtered(s, OfMachine(k), None);
    var i :| 0 <= i < |s| && s[i] == g[k][j];
  }

  /** The machine of an offer without a numeric `gpu_frac` is warned about. */
  lemma OfferIsWarned(s: seq<Offer>, i: int)
    requires forall o :: o in s ==> HasMachineId(o)
    requires 0 <= i < |s| && !IsNum(s[i], "gpu_frac")
    ensures MachineId(s[i]) in GpuFracWarnings(Grouped(s))
  {
    GroupedMembers(s);
    var g := Grouped(s);
    var j :| 0 <= j < |g[MachineId(s[i])]| && g[MachineId(s[i])][j] == s[i];
  }

  /** `validate` exactly as written: the diagnostic groups the unfiltered
      input, so an offer without a numeric machine id, one the filter drops,
      makes the machine-id lookup fail (`None`); otherwise the warnings are
      computed over every input offer, dropped ones included. */
  function ValidateAsWritten(offers: seq<Offer>): (r: Option<(seq<Offer>, set<int>)>)
    ensures r.None? <==> exists i :: 0 <= i < |offers| && !HasMachineId(offers[i])
    ensures r.Some? ==> r.value.0 == Filtered(offers, HasRequiredFields, None)
  {
    if forall o :: o in offers ==> HasMachineId(o)
    then Some((Filtered(offers, HasRequiredFields, None), GpuFracWarnings(Grouped(offers))))
    else None
  }

  /** An offer lacking a machine id, which the filter would drop, makes the
      written code fail instead of returning an empty result. */
  lemma AsWrittenFailsOnDroppedOffer()
    ensures var o := map["gpu_name" := Str("RTX 3090")];
            && Filtered([o], HasRequiredFields, None) == []
            && ValidateAsWritten([o]) == None
  {
    var o: Offer := map["gpu_name" := Str("RTX 3090")];
    assert !HasMachineId([o][0]);
  }

  /** A machine whose only offer is dropped is still warned about. */
  lemma AsWrittenWarnsAboutDroppedMachine()
    ensures var o := map["machine_id" := Num(7.0)];
            && Filtered([o], HasRequiredFields, None) == []
            && ValidateAsWritten([o]) == Some(([], {7}))
  {
    var o: Offer := map["machine_id" := Num(7.0)];
    assert MachineId(o) == 7;
    assert [o][..0] == [];
    assert [] + [o] == [o];
    assert Grouped([o]) == map[7 := [o]];
    assert MissingGpuFrac([o]);
    assert GpuFracWarnings(Grouped([o])) == {7};
  }

  /** The diagnostic loop of `validate`: the machines of `grouped` that have
      an offer without a numeric `gpu_frac`, visited in no particular order. */
  method GpuFracDiagnostic(grouped: map<int, seq<Offer>>) returns (warned: set<int>)
    ensures warned == GpuFracWarnings(grouped)
  {
    warned := {};
    var pending := grouped.Keys;
    while pending != {}
      invariant pending <= grouped.Keys
      invariant forall m :: m in warned <==> m in grouped && m !in pending && MissingGpuFrac(grouped[m])
      decreases pending
    {
      ghost var some := Member(pending);
      var k :| k in pending;
      var group := grouped[k];
      var bad := false;
      for i := 0 to |group|
        invariant bad <==> exists j :: 0 <= j < i && !IsNum(group[j], "gpu_frac")
      {
        if !IsNum(group[i], "gpu_frac") {
          bad := true;
        }
      }
      if bad {
        warned := warned + {k};
      }
      pending := pending - {k};
    }
    assert forall m :: m in warned <==> m in GpuFracWarnings(grouped);
  }

  /** `validate` as evidently intended: the offers with all required fields,
      in input order, and the machines among the surviving offers that have
      an offer without a numeric `gpu_frac`. */
  method Validate(offers: seq<Offer>) returns (result: seq<Offer>, warned: set<int>)
    ensures result == Filtered(offers, HasRequiredFields, None)
    ensures forall o :: o in result <==> o in offers && HasRequiredFields(o)
    ensures warned == GpuFracWarnings(Grouped(result))
  {
    result := Filter(offers, HasRequiredFields);
    var grouped := GroupByMachineId(result);
    warned := GpuFracDiagnostic(grouped);
  }
}
