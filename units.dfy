/**
 * The `Unit` enum (src/main/java/com/inventory/model/Unit.java): two constants,
 * each carrying its string value, and a case-insensitive parser `fromValue`.
 */
module Units {
  import opened Wrappers

  datatype Unit = KG | LB

  /** `Unit.values()`, in declaration order. */
  const AllUnits: seq<Unit> := [KG, LB]

  /** `getValue()`: the string each constant was declared with. */
  function Value(u: Unit): (s: string)
    ensures |s| == 2
    ensures u == KG <==> s == "KG"
    ensures u == LB <==> s == "LB"
  {
    match u
    case KG => "KG"
    case LB => "LB"
  }

  /** Upper-case of an ASCII letter; every other character is left as it is. */
  function UpperAscii(c: char): (d: char)
    ensures 'a' <= c <= 'z' ==> 'A' <= d <= 'Z' && d as int == c as int - 32
    ensures !('a' <= c <= 'z') ==> d == c
  {
    if 'a' <= c <= 'z' then (c as int - 32) as char else c
  }

  /** `String.equalsIgnoreCase`, restricted to ASCII case folding. */
  predicate EqualsIgnoreCase(a: string, b: string) {
    |a| == |b| && forall i :: 0 <= i < |a| ==> UpperAscii(a[i]) == UpperAscii(b[i])
  }

  /** The failure `fromValue` raises (an IllegalArgumentException naming the value). */
  datatype UnitError = UnknownUnit(value: string)

  /**
   * The loop of `fromValue`: the first of `candidates` whose value equals `s`
   * ignoring case, or None when the loop runs to its end.
   */
  function FirstMatch(candidates: seq<Unit>, s: string): (r: Option<Unit>)
    ensures r.Some? ==> r.value in candidates && EqualsIgnoreCase(Value(r.value), s)
    ensures r.None? <==> forall u :: u in candidates ==> !EqualsIgnoreCase(Value(u), s)
  {
    if candidates == [] then None
    else if EqualsIgnoreCase(Value(candidates[0]), s) then Some(candidates[0])
    else FirstMatch(candidates[1..], s)
  }

  /** `fromValue`: the unit whose value equals `s` ignoring case, or UnknownUnit(s). */
  function FromValue(s: string): (r: Result<Unit, UnitError>)
    ensures r.Ok? ==> EqualsIgnoreCase(Value(r.value), s)
    ensures r.Err? <==> !EqualsIgnoreCase("KG", s) && !EqualsIgnoreCase("LB", s)
    ensures r.Err? ==> r.error == UnknownUnit(s)
  {
    match FirstMatch(AllUnits, s)
    case Some(u) => Ok(u)
    case None =>
      assert KG in AllUnits && LB in AllUnits;
      Err(UnknownUnit(s))
  }

  /** The two values differ even ignoring case, so no string names both units. */
  lemma {:induction false} ValuesDistinctIgnoringCase(s: string)
    ensures !(EqualsIgnoreCase("KG", s) && EqualsIgnoreCase("LB", s))
  {
    if EqualsIgnoreCase("KG", s) {
      assert UpperAscii(s[0]) == UpperAscii("KG"[0]) == 'K';
    }
  }

  /** `fromValue(u.getValue()) == u` for every unit. */
  lemma {:induction false} FromValueRoundTrip(u: Unit)
    ensures FromValue(Value(u)) == Ok(u)
  {
    ValuesDistinctIgnoringCase(Value(u));
    var s := Value(u);
    assert EqualsIgnoreCase(s, s);
  }

  /** `fromValue` accepts a string exactly when it names one unit ignoring case, and returns that unit. */
  lemma {:induction false} FromValueNamesUnit(s: string, u: Unit)
    ensures FromValue(s) == Ok(u) <==> EqualsIgnoreCase(Value(u), s)
  {
    ValuesDistinctIgnoringCase(s);
  }

  /** Case does not matter: lower-case spellings parse to the same units. */
  lemma FromValueIgnoresCase()
    ensures FromValue("kg") == Ok(KG)
    ensures FromValue("Lb") == Ok(LB)
    ensures FromValue("KILO").Err?
  {
    FromValueNamesUnit("kg", KG);
    FromValueNamesUnit("Lb", LB);
    assert !EqualsIgnoreCase("KG", "KILO");
  }

  /** Two strings equal ignoring case parse to the same result, up to the echoed string in the error. */
  lemma {:induction false} FromValueCaseInsensitive(s: string, t: string)
    requires EqualsIgnoreCase(s, t)
    ensures FromValue(s).Ok? == FromValue(t).Ok?
    ensures FromValue(s).Ok? ==> FromValue(s) == FromValue(t)
  {
    forall v: string | EqualsIgnoreCase(v, s)
      ensures EqualsIgnoreCase(v, t)
    {
      forall i | 0 <= i < |v| ensures UpperAscii(v[i]) == UpperAscii(t[i]) {
        assert UpperAscii(v[i]) == UpperAscii(s[i]);
      }
    }
    forall v: string | EqualsIgnoreCase(v, t)
      ensures EqualsIgnoreCase(v, s)
    {
      forall i | 0 <= i < |v| ensures UpperAscii(v[i]) == UpperAscii(s[i]) {
        assert UpperAscii(v[i]) == UpperAscii(t[i]);
      }
    }
    ValuesDistinctIgnoringCase(s);
    ValuesDistinctIgnoringCase(t);
  }
}
