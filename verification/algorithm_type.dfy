/**
 * AlgorithmType.java: the enumeration of integration schemes, each carrying
 * the key under which a configuration file names it.
 */
module AlgorithmTypes {
  import opened Wrappers

  datatype AlgorithmType = Beeman | Verlet | Gear

  /** `values()`, in declaration order. */
  const Values: seq<AlgorithmType> := [Beeman, Verlet, Gear]

  /** The key each constant is declared with. */
  function Key(t: AlgorithmType): string
  {
    match t
    case Beeman => "Beeman"
    case Verlet => "Verlet"
    case Gear => "Gear"
  }

  /** `name()`: the constant's identifier as Java spells it. */
  function Name(t: AlgorithmType): string
  {
    match t
    case Beeman => "BEEMAN"
    case Verlet => "VERLET"
    case Gear => "GEAR"
  }

  /** The loop of `of`: the first constant of `ts` whose key equals `key` exactly. */
  function FirstWithKey(ts: seq<AlgorithmType>, key: string): (r: Option<AlgorithmType>)
    ensures r.Some? ==> r.value in ts && Key(r.value) == key
    ensures r.None? <==> forall i :: 0 <= i < |ts| ==> Key(ts[i]) != key
  {
    if ts == [] then None
    else if Key(ts[0]) == key then Some(ts[0])
    else
      var r := FirstWithKey(ts[1..], key);
      assert forall i :: 1 <= i < |ts| ==> ts[i] == ts[1..][i - 1];
      r
  }

  /** `of(key)`: the constant whose key is `key`, or None where Java returns null. */
  function Of(key: string): Option<AlgorithmType>
  {
    FirstWithKey(Values, key)
  }

  lemma KeysDistinct()
    ensures forall t, u :: Key(t) == Key(u) ==> t == u
  {
    assert "Beeman"[0] != "Verlet"[0] && "Beeman"[0] != "Gear"[0] && "Verlet"[0] != "Gear"[0];
  }

  /** Every constant is found again from its own key. */
  lemma OfKey(t: AlgorithmType)
    ensures Of(Key(t)) == Some(t)
  {
    assert Values[0] == Beeman && Values[1] == Verlet && Values[2] == Gear;
    KeysDistinct();
  }

  /** Any string that is not one of the three keys, compared exactly and case-sensitively, gives None. */
  lemma OfUnknown(key: string)
    ensures Of(key).None? <==> key != "Beeman" && key != "Verlet" && key != "Gear"
  {
    assert Values[0] == Beeman && Values[1] == Verlet && Values[2] == Gear;
  }

  /** The enum names are upper-case and never match a key. */
  lemma OfNameIsNone(t: AlgorithmType)
    ensures Of(Name(t)) == None
  {
    OfUnknown(Name(t));
  }
}
