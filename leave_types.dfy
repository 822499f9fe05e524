/**
 * Leave types: the case folding applied to a requested type and the fixed
 * yearly quota each type gets when no allocation row exists yet.
 */
module LeaveTypes {

  /** ASCII lower-casing of one character. */
  function LowerChar(c: char): char
  {
    if 'A' <= c <= 'Z' then (c as int + 32) as char else c
  }

  /** Lower-casing of a type name, as strings.ToLower does for ASCII text. */
  function ToLower(s: string): string
  {
    seq(|s|, i requires 0 <= i < |s| => LowerChar(s[i]))
  }

  lemma ToLowerIdempotent(s: string)
    ensures ToLower(ToLower(s)) == ToLower(s)
  {
    assert forall i :: 0 <= i < |s| ==> ToLower(ToLower(s))[i] == ToLower(s)[i];
  }

  /** The types with a non-zero default quota. */
  const KnownTypes: set<string> := {"sick", "casual", "vacation"}

  /** The rows of a balance report, in report order. */
  const ReportTypes: seq<string> := ["sick", "casual", "vacation"]

  /** Days granted per year for a type with no allocation row: sick 15,
      casual 5, vacation 10, ignoring case; every other type gets nothing. */
  function DefaultAllocation(t: string): (days: nat)
    ensures days > 0 <==> ToLower(t) in KnownTypes
  {
    var l := ToLower(t);
    if l == "sick" then 15
    else if l == "casual" then 5
    else if l == "vacation" then 10
    else 0
  }

  /** The quota does not depend on how the type name is capitalised. */
  lemma DefaultAllocationIgnoresCase(t: string)
    ensures DefaultAllocation(ToLower(t)) == DefaultAllocation(t)
  {
    ToLowerIdempotent(t);
  }

  /** The report types are already lower case and are exactly the known types. */
  lemma ReportTypesAreKnownAndLower()
    ensures forall i :: 0 <= i < |ReportTypes| ==> ToLower(ReportTypes[i]) == ReportTypes[i] && ReportTypes[i] in KnownTypes
    ensures forall t :: t in KnownTypes <==> t in ReportTypes
  {
    assert ToLower("sick") == "sick";
    assert ToLower("casual") == "casual";
    assert ToLower("vacation") == "vacation";
  }
}
