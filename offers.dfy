/** Raw marketplace offers: schema-less records of dynamically typed values,
    and the typed accessors the reconciliation code reads them through. */
module Offers {

  /** The dynamic values an offer record holds. JSON numbers are decoded as
      floating point (`Num`); the two fields the reconciler computes itself are
      machine integers (`Int`), a different dynamic type. */
  datatype Value =
    | Num(x: real)
    | Int(i: int)
    | Str(s: string)
    | Bool(b: bool)
    | Null
    | Other

  /** One listing: field name to dynamic value. */
  type Offer = map<string, Value>

  datatype Option<T> = None | Some(value: T)

  /** Some member of a non-empty set, as a witness for picking one. */
  lemma Member<T>(s: set<T>) returns (x: T)
    requires s != {}
    ensures x in s
  {
    if forall y :: y !in s {
      assert false;
    }
    x :| x in s;
  }

  predicate IsNum(o: Offer, k: string) { k in o && o[k].Num? }
  predicate IsInt(o: Offer, k: string) { k in o && o[k].Int? }
  predicate IsStr(o: Offer, k: string) { k in o && o[k].Str? }
  predicate IsBool(o: Offer, k: string) { k in o && o[k].Bool? }

  /** n is x with its fraction discarded, rounding toward zero. */
  ghost predicate IsTruncation(x: real, n: int) {
    && (0.0 <= x ==> n as real <= x < n as real + 1.0)
    && (x < 0.0 ==> n as real - 1.0 < x <= n as real)
  }

  /** Conversion of a floating-point number to an integer, which truncates
      toward zero (unlike Dafny's `Floor` on negative numbers). */
  function Trunc(x: real): (n: int)
    ensures IsTruncation(x, n)
    ensures 0.0 <= x ==> 0 <= n
  {
    if 0.0 <= x then x.Floor else -((-x).Floor)
  }

  predicate HasMachineId(o: Offer) { IsNum(o, "machine_id") }

  /** What the reconciler reads of every offer. */
  predicate Reconcilable(o: Offer) {
    IsNum(o, "machine_id") && IsNum(o, "num_gpus") && IsBool(o, "rentable")
  }

  /** The chunk size of an offer: its GPU count, truncated to an integer. */
  function NumGpus(o: Offer): (n: int)
    requires IsNum(o, "num_gpus")
    ensures IsTruncation(o["num_gpus"].x, n)
  {
    Trunc(o["num_gpus"].x)
  }

  /** The rented GPU count that the reconciler stores as a machine integer. */
  function NumGpusRented(o: Offer): (n: int)
    requires IsInt(o, "num_gpus_rented")
    ensures o["num_gpus_rented"] == Int(n)
  {
    o["num_gpus_rented"].i
  }

  function MachineId(o: Offer): (id: int)
    requires HasMachineId(o)
    ensures IsTruncation(o["machine_id"].x, id)
  {
    Trunc(o["machine_id"].x)
  }

  function GpuName(o: Offer): (name: string)
    requires IsStr(o, "gpu_name")
    ensures o["gpu_name"] == Str(name)
  {
    o["gpu_name"].s
  }

  function Verified(o: Offer): (v: bool)
    requires IsBool(o, "verified")
    ensures o["verified"] == Bool(v)
  {
    o["verified"].b
  }

  function Rentable(o: Offer): (r: bool)
    requires IsBool(o, "rentable")
    ensures o["rentable"] == Bool(r)
  {
    o["rentable"].b
  }
}
